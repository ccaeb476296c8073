/** Result carriers and small helpers shared by the modules of the model. */
module Prelude {

  datatype Option<+T> = None | Some(value: T)

  datatype Result<+T, +E> = Ok(value: T) | Err(error: E)

  const I64_MAX := 0x7fff_ffff_ffff_ffff

  ghost predicate Distinct<T>(s: seq<T>) {
    forall i, j | 0 <= i < j < |s| :: s[i] != s[j]
  }

  /** The decimal digits of a number. */
  function Decimal(n: nat): (s: string)
    ensures |s| > 0
    ensures forall i | 0 <= i < |s| :: '0' <= s[i] <= '9'
  {
    var digit := ('0' as int + n % 10) as char;
    if n < 10 then [digit] else Decimal(n / 10) + [digit]
  }

  /** The present images of a list, in order. */
  function Collect<A, B>(f: A -> Option<B>, s: seq<A>): seq<B> {
    if s == [] then [] else Collect(f, s[..|s| - 1]) + if f(s[|s| - 1]).Some? then [f(s[|s| - 1]).value] else []
  }

  lemma {:induction false} CollectMember<A, B>(f: A -> Option<B>, s: seq<A>, b: B)
    ensures b in Collect(f, s) <==> exists k :: 0 <= k < |s| && f(s[k]) == Some(b)
  {
    if s != [] {
      var init, last := s[..|s| - 1], s[|s| - 1];
      CollectMember(f, init, b);
      if f(last) == Some(b) {
        assert f(s[|s| - 1]) == Some(b);
      }
      if k :| 0 <= k < |init| && f(init[k]) == Some(b) {
        assert f(s[k]) == Some(b);
      }
      if k :| 0 <= k < |init| && f(s[k]) == Some(b) {
        assert f(init[k]) == Some(b);
      }
    }
  }
}
