/** The small type syntax of the CEL oracle: printing and parsing. */
module CelTypes {
  import opened Prelude
  import opened Text

  datatype CelType =
    | Bool | Int | Uint | Double | String | Bytes | Dyn | Null | Timestamp | Duration
    | List(elem: CelType)
    | Map(key: CelType, value: CelType)
    | Optional(elem: CelType)

  /** The documented syntax. */
  function Print(t: CelType): string {
    match t
    case Bool => "bool"
    case Int => "int"
    case Uint => "uint"
    case Double => "double"
    case String => "string"
    case Bytes => "bytes"
    case Dyn => "dyn"
    case Null => "null"
    case Timestamp => "timestamp"
    case Duration => "duration"
    case List(e) => "list" + "(" + Print(e) + ")"
    case Map(k, v) => "map" + "(" + (Print(k) + ", " + Print(v)) + ")"
    case Optional(e) => "optional" + "(" + Print(e) + ")"
  }

  /** The documented names ... */
  lemma Documented()
    ensures Print(Bool) == "bool" && Print(Int) == "int" && Print(Uint) == "uint" && Print(Double) == "double"
    ensures Print(String) == "string" && Print(Bytes) == "bytes" && Print(Dyn) == "dyn" && Print(Null) == "null"
    ensures Print(Timestamp) == "timestamp" && Print(Duration) == "duration"
  {
  }

  /** ... and the documented types with arguments. */
  lemma {:induction false} DocumentedArguments(t: CelType, u: CelType)
    ensures Print(List(t)) == "list(" + Print(t) + ")" && Print(Optional(t)) == "optional(" + Print(t) + ")"
    ensures Print(Map(t, u)) == "map(" + Print(t) + ", " + Print(u) + ")"
  {
    assert "list" + "(" == "list(" && "optional" + "(" == "optional(" && "map" + "(" == "map(";
    Glue("map(", Print(t), ", ", Print(u));
  }

  lemma Glue(a: string, b: string, c: string, d: string)
    ensures a + (b + c + d) == a + b + c + d
  {
  }

  function Keyword(s: string): Option<CelType> {
    if s == "bool" then Some(Bool)
    else if s == "int" then Some(Int)
    else if s == "uint" then Some(Uint)
    else if s == "double" then Some(Double)
    else if s == "string" then Some(String)
    else if s == "bytes" then Some(Bytes)
    else if s == "dyn" then Some(Dyn)
    else if s == "null" then Some(Null)
    else if s == "timestamp" then Some(Timestamp)
    else if s == "duration" then Some(Duration)
    else None
  }

  // ------------------------------------------------------------ splitting

  function Deeper(c: char, depth: int): int {
    if c == '(' then depth + 1 else if c == ')' then depth - 1 else depth
  }

  /** The pieces of `s[start..]`, scanned up to `i` at `depth`: cut at the commas
      of depth zero, a blank last piece dropped. */
  function SplitFrom(s: string, i: nat, start: nat, depth: int): (r: seq<string>)
    requires start <= i <= |s|
    decreases |s| - i
  {
    if i == |s| then (if Trim(s[start..]) != "" then [s[start..]] else [])
    else if s[i] == ',' && depth == 0 then [s[start..i]] + SplitFrom(s, i + 1, i + 1, 0)
    else SplitFrom(s, i + 1, start, Deeper(s[i], depth))
  }

  function Split(s: string): seq<string> {
    SplitFrom(s, 0, 0, 0)
  }

  /** `splitArgs` */
  method SplitArgs(s: string) returns (out: seq<string>)
    ensures out == Split(s)
  {
    out := [];
    var depth, start := 0, 0;
    var i := 0;
    while i < |s|
      invariant 0 <= start <= i <= |s|
      invariant out + SplitFrom(s, i, start, depth) == Split(s)
    {
      match s[i] {
        case '(' => depth := depth + 1;
        case ')' => depth := depth - 1;
        case ',' =>
          if depth == 0 {
            out := out + [s[start..i]];
            start := i + 1;
          }
        case _ =>
      }
      i := i + 1;
    }
    if Trim(s[start..]) != "" {
      out := out + [s[start..]];
    }
  }

  lemma {:induction false} SplitShort(s: string, i: nat, start: nat, depth: int)
    requires start <= i <= |s|
    ensures forall k | 0 <= k < |SplitFrom(s, i, start, depth)| :: |SplitFrom(s, i, start, depth)[k]| <= |s|
    decreases |s| - i
  {
    if i < |s| {
      if s[i] == ',' && depth == 0 {
        SplitShort(s, i + 1, i + 1, 0);
      } else {
        SplitShort(s, i + 1, start, Deeper(s[i], depth));
      }
    }
  }

  /** The depth after a stretch of text; `None` if it has a comma of depth zero. */
  function Scan(a: string, depth: int): Option<int> {
    if a == [] then Some(depth)
    else if a[0] == ',' && depth == 0 then None
    else Scan(a[1..], Deeper(a[0], depth))
  }

  lemma {:induction false} ScanConcat(a: string, b: string, depth: int)
    ensures Scan(a + b, depth) == if Scan(a, depth).Some? then Scan(b, Scan(a, depth).value) else None
    decreases |a|
  {
    if a == [] {
      assert a + b == b;
    } else {
      assert (a + b)[1..] == a[1..] + b;
      ScanConcat(a[1..], b, Deeper(a[0], depth));
    }
  }

  /** A stretch without depth-zero commas is not cut. */
  lemma {:induction false} ScanSkips(s: string, i: nat, j: nat, start: nat, depth: int)
    requires start <= i <= j <= |s| && Scan(s[i..j], depth).Some?
    ensures SplitFrom(s, i, start, depth) == SplitFrom(s, j, start, Scan(s[i..j], depth).value)
    decreases j - i
  {
    if i < j {
      assert s[i..j][1..] == s[i + 1..j] && s[i..j][0] == s[i];
      ScanSkips(s, i + 1, j, start, Deeper(s[i], depth));
    }
  }

  /** Every piece is whole: no comma of depth zero in it, and all but the last
      end at depth zero. */
  ghost predicate Whole(pieces: seq<string>) {
    forall k | 0 <= k < |pieces| :: Scan(pieces[k], 0).Some? && (k < |pieces| - 1 ==> Scan(pieces[k], 0) == Some(0))
  }

  lemma {:induction false} PiecesWhole(s: string, i: nat, start: nat, depth: int)
    requires start <= i <= |s| && Scan(s[start..i], 0) == Some(depth)
    ensures Whole(SplitFrom(s, i, start, depth))
    decreases |s| - i
  {
    if i == |s| {
      assert s[start..i] == s[start..];
    } else if s[i] == ',' && depth == 0 {
      assert s[i + 1..i + 1] == [];
      PiecesWhole(s, i + 1, i + 1, 0);
    } else {
      assert s[start..i + 1] == s[start..i] + [s[i]];
      ScanConcat(s[start..i], [s[i]], 0);
      assert [s[i]][1..] == [];
      PiecesWhole(s, i + 1, start, Deeper(s[i], depth));
    }
  }

  /** Splitting does not look at what comes before. */
  lemma {:induction false} SplitShift(a: string, s: string, i: nat, start: nat, depth: int)
    requires start <= i <= |s|
    ensures SplitFrom(a + s, |a| + i, |a| + start, depth) == SplitFrom(s, i, start, depth)
    decreases |s| - i
  {
    assert (a + s)[|a| + start..] == s[start..];
    if i < |s| {
      assert (a + s)[|a| + i] == s[i] && (a + s)[|a| + start..|a| + i] == s[start..i];
      if s[i] == ',' && depth == 0 {
        SplitShift(a, s, i + 1, i + 1, 0);
      } else {
        SplitShift(a, s, i + 1, start, Deeper(s[i], depth));
      }
    }
  }

  function Join(pieces: seq<string>): string {
    if pieces == [] then "" else if |pieces| == 1 then pieces[0] else pieces[0] + "," + Join(pieces[1..])
  }

  /** The pieces, joined by commas again, are the text: nothing is lost but a
      blank last piece. */
  lemma {:induction false} SplitJoins(s: string, i: nat, start: nat, depth: int) returns (tail: string)
    requires start <= i <= |s|
    ensures Trim(tail) == ""
    ensures var pieces := SplitFrom(s, i, start, depth);
            s[start..] == Join(pieces) || s[start..] == Join(pieces + [tail])
    decreases |s| - i
  {
    if i == |s| {
      tail := if Trim(s[start..]) == "" then s[start..] else "";
    } else if s[i] == ',' && depth == 0 {
      tail := SplitJoins(s, i + 1, i + 1, 0);
      var rest := SplitFrom(s, i + 1, i + 1, 0);
      assert s[start..] == s[start..i] + "," + s[i + 1..];
      assert ([s[start..i]] + rest)[1..] == rest;
      assert ([s[start..i]] + rest + [tail])[1..] == rest + [tail];
      if rest == [] && s[i + 1..] == Join(rest) {
        tail := "";
        assert [s[start..i]] + [tail] == [s[start..i], tail];
        assert [s[start..i], tail][1..] == [tail];
      }
    } else {
      tail := SplitJoins(s, i + 1, start, Deeper(s[i], depth));
    }
  }

  /** Whole pieces are what splitting their join gives back, a blank last one
      left out; so the cut into whole pieces is the only one. */
  lemma {:induction false} SplitUnique(pieces: seq<string>)
    requires pieces != [] && Whole(pieces)
    ensures Split(Join(pieces)) == if Trim(pieces[|pieces| - 1]) == "" then pieces[..|pieces| - 1] else pieces
    decreases |pieces|
  {
    var s, first, n := Join(pieces), pieces[0], |pieces[0]|;
    if |pieces| == 1 {
      assert s[0..n] == first == s[0..];
      ScanSkips(s, 0, n, 0, 0);
      assert pieces[..0] == [] && pieces == [first];
    } else {
      var rest := pieces[1..];
      assert s == first + "," + Join(rest);
      assert s[0..n] == first && s[n] == ',';
      ScanSkips(s, 0, n, 0, 0);
      SplitShift(first + ",", Join(rest), 0, 0, 0);
      assert Whole(rest) by {
        assert forall k | 0 <= k < |rest| :: rest[k] == pieces[k + 1];
      }
      SplitUnique(rest);
      assert Split(s) == [first] + Split(Join(rest));
      assert rest[|rest| - 1] == pieces[|pieces| - 1];
      assert [first] + rest == pieces && [first] + rest[..|rest| - 1] == pieces[..|pieces| - 1];
    }
  }

  // -------------------------------------------------------------- parsing

  function IndexOpen(s: string): (i: nat)
    ensures i <= |s| && (i < |s| ==> s[i] == '(') && forall k | 0 <= k < i :: s[k] != '('
  {
    if s == [] || s[0] == '(' then 0 else 1 + IndexOpen(s[1..])
  }

  function Build(name: string, args: seq<CelType>): Option<CelType> {
    if name == "list" && |args| == 1 then Some(List(args[0]))
    else if name == "map" && |args| == 2 then Some(Map(args[0], args[1]))
    else if name == "optional" && |args| == 1 then Some(Optional(args[0]))
    else None
  }

  predicate HasParens(s: string) {
    IndexOpen(s) < |s| && s[|s| - 1] == ')'
  }

  function Inner(s: string): (r: string)
    requires HasParens(s)
    ensures |r| < |s|
  {
    s[IndexOpen(s) + 1..|s| - 1]
  }

  /** What `parseType` returns; `None` is an error. */
  function Parse(s: string): Option<CelType>
    decreases |s|
  {
    var t := Trim(s);
    if Keyword(t).Some? then Keyword(t)
    else if !HasParens(t) then None
    else
      TrimShortens(s);
      SplitShort(Inner(t), 0, 0, 0);
      var args := ParseAll(Split(Inner(t)), |s|);
      if args.None? then None else Build(t[..IndexOpen(t)], args.value)
  }

  function ParseAll(args: seq<string>, bound: nat): Option<seq<CelType>>
    requires forall k | 0 <= k < |args| :: |args[k]| < bound
    decreases bound, |args|
  {
    if args == [] then Some([])
    else
      var init := ParseAll(args[..|args| - 1], bound);
      var last := Parse(args[|args| - 1]);
      if init.None? || last.None? then None else Some(init.value + [last.value])
  }

  lemma {:induction false} ParseAllFails(args: seq<string>, bound: nat, n: nat)
    requires n <= |args| && forall k | 0 <= k < |args| :: |args[k]| < bound
    requires ParseAll(args[..n], bound).None?
    ensures ParseAll(args, bound).None?
    decreases |args|
  {
    if n == |args| {
      assert args[..n] == args;
    } else {
      assert args[..|args| - 1][..n] == args[..n];
      ParseAllFails(args[..|args| - 1], bound, n);
    }
  }

  /** `parseType` */
  method ParseType(s: string) returns (r: Option<CelType>)
    ensures r == Parse(s)
    decreases |s|, 1
  {
    var t := Trim(s);
    if Keyword(t).Some? {
      return Keyword(t);
    }
    if !HasParens(t) {
      return None;
    }
    TrimShortens(s);
    SplitShort(Inner(t), 0, 0, 0);
    var args := SplitArgs(Inner(t));
    var ps := ParseArgs(args, |s|);
    return if ps.None? then None else Build(t[..IndexOpen(t)], ps.value);
  }

  /** Its loop over the arguments, up to the first that does not parse. */
  method ParseArgs(args: seq<string>, ghost bound: nat) returns (r: Option<seq<CelType>>)
    requires forall k | 0 <= k < |args| :: |args[k]| < bound
    ensures r == ParseAll(args, bound)
    decreases bound, 0
  {
    var ps := [];
    var i := 0;
    while i < |args|
      invariant 0 <= i <= |args| && ParseAll(args[..i], bound) == Some(ps)
    {
      assert args[..i + 1][..i] == args[..i];
      var p := ParseType(args[i]);
      if p.None? {
        ParseAllFails(args, bound, i + 1);
        return None;
      }
      ps := ps + [p.value];
      i := i + 1;
    }
    assert args[..i] == args;
    return Some(ps);
  }

  // ----------------------------------------------------------- round trip

  lemma {:induction false} PrintTight(t: CelType)
    ensures Tight(Print(t))
  {
  }

  lemma {:induction false} ScanPlain(a: string, depth: int)
    requires forall k | 0 <= k < |a| :: a[k] !in "(),"
    ensures Scan(a, depth) == Some(depth)
  {
    if a != [] {
      ScanPlain(a[1..], depth);
    }
  }

  /** Something whole in parentheses after a plain name is whole. */
  lemma ScanWrapped(name: string, inner: string, depth: int)
    requires forall k | 0 <= k < |name| :: name[k] !in "(),"
    requires Scan(inner, depth + 1) == Some(depth + 1)
    ensures Scan(name + "(" + inner + ")", depth) == Some(depth)
  {
    ScanPlain(name, depth);
    ScanConcat(name, "(", depth);
    ScanConcat(name + "(", inner, depth);
    ScanConcat(name + "(" + inner, ")", depth);
    ScanOne('(', depth);
    ScanOne(')', depth + 1);
  }

  lemma {:induction false} ScanOne(c: char, depth: int)
    requires c != ',' || depth != 0
    ensures Scan([c], depth) == Some(Deeper(c, depth))
  {
    assert [c][1..] == [];
  }

  /** Two whole texts with a comma between them are whole inside parentheses. */
  lemma {:induction false} ScanPair(a: string, b: string, depth: int)
    requires depth != 0 && Scan(a, depth) == Some(depth) && Scan(b, depth) == Some(depth)
    ensures Scan(a + ", " + b, depth) == Some(depth)
  {
    ScanConcat(a, ", ", depth);
    ScanConcat(a + ", ", b, depth);
    ScanConcat(",", " ", depth);
    assert ", " == "," + " ";
    ScanOne(',', depth);
    ScanOne(' ', depth);
  }

  predicate Simple(t: CelType) {
    !t.List? && !t.Map? && !t.Optional?
  }

  lemma {:induction false} PrintSimple(t: CelType)
    requires Simple(t)
    ensures Keyword(Print(t)) == Some(t)
    ensures forall k | 0 <= k < |Print(t)| :: Print(t)[k] !in "(),"
  {
  }

  /** How a type with arguments prints: a name and the inside in parentheses. */
  function NameOf(t: CelType): string {
    if t.List? then "list" else if t.Map? then "map" else "optional"
  }

  function Inside(t: CelType): string
    requires !Simple(t)
  {
    if t.Map? then Print(t.key) + ", " + Print(t.value) else Print(t.elem)
  }

  lemma {:induction false} PrintWrapped(t: CelType)
    requires !Simple(t)
    ensures Print(t) == NameOf(t) + "(" + Inside(t) + ")"
    ensures forall k | 0 <= k < |NameOf(t)| :: NameOf(t)[k] !in "(),"
  {
  }

  /** A printed type is balanced and shows no comma at its own depth. */
  lemma {:induction false} PrintWhole(t: CelType, depth: nat)
    ensures Scan(Print(t), depth) == Some(depth)
    decreases t, 1
  {
    if Simple(t) {
      PrintSimple(t);
      ScanPlain(Print(t), depth);
    } else {
      InsideWhole(t, depth + 1);
      PrintWrapped(t);
      ScanWrapped(NameOf(t), Inside(t), depth);
    }
  }

  lemma {:induction false} InsideWhole(t: CelType, depth: nat)
    requires !Simple(t) && depth != 0
    ensures Scan(Inside(t), depth) == Some(depth)
    decreases t, 0
  {
    if t.Map? {
      PrintWhole(t.key, depth);
      PrintWhole(t.value, depth);
      ScanPair(Print(t.key), Print(t.value), depth);
    } else {
      PrintWhole(t.elem, depth);
    }
  }

  /** The inside of a one-argument type is one piece. */
  lemma {:induction false} SplitOne(a: string)
    requires Scan(a, 0) == Some(0) && Tight(a)
    ensures Split(a) == [a]
  {
    assert a[0..|a|] == a && a[0..] == a;
    ScanSkips(a, 0, |a|, 0, 0);
    TrimTight(a);
  }

  /** The inside of a two-argument type is two pieces. */
  lemma {:induction false} SplitTwo(a: string, b: string)
    requires Scan(a, 0) == Some(0) && Scan(b, 0) == Some(0) && Tight(b)
    ensures Split(a + ", " + b) == [a, " " + b]
  {
    var s := a + ", " + b;
    var n := |a|;
    assert s == a + "," + (" " + b);
    assert s[0..n] == a && s[n] == ',' && s[n + 1..] == " " + b && s[n + 1..|s|] == " " + b;
    ScanSkips(s, 0, n, 0, 0);
    ScanConcat(" ", b, 0);
    ScanPlain(" ", 0);
    ScanSkips(s, n + 1, |s|, n + 1, 0);
    TrimTight(b);
    assert s[0..n] == a;
  }

  lemma Opens(name: string, inner: string)
    requires '(' !in name
    ensures var s := name + "(" + inner + ")";
            IndexOpen(s) == |name| && HasParens(s) && Inner(s) == inner && s[..|name|] == name && Keyword(s).None?
  {
    var s := name + "(" + inner + ")";
    assert s[|name|] == '(' && s[|s| - 1] == ')' && s[..|name|] == name;
    assert forall k | 0 <= k < |name| :: s[k] == name[k];
  }

  lemma {:induction false} ParseOne(a: string, bound: nat)
    requires |a| < bound
    ensures ParseAll([a], bound) == if Parse(a).Some? then Some([Parse(a).value]) else None
  {
    assert [a][..0] == [];
    if Parse(a).Some? {
      assert [] + [Parse(a).value] == [Parse(a).value];
    }
  }

  lemma {:induction false} ParseTwo(a: string, b: string, bound: nat)
    requires |a| < bound && |b| < bound
    ensures ParseAll([a, b], bound) ==
            if Parse(a).Some? && Parse(b).Some? then Some([Parse(a).value, Parse(b).value]) else None
  {
    assert [a, b][..1] == [a];
    ParseOne(a, bound);
    if Parse(a).Some? && Parse(b).Some? {
      assert [Parse(a).value] + [Parse(b).value] == [Parse(a).value, Parse(b).value];
    }
  }

  /** Parsing a name with a parenthesised inside. */
  lemma {:induction false} ParseWrapped(s: string, name: string, inner: string)
    requires '(' !in name && Trim(s) == name + "(" + inner + ")"
    ensures forall k | 0 <= k < |Split(inner)| :: |Split(inner)[k]| < |s|
    ensures Parse(s) == var args := ParseAll(Split(inner), |s|); if args.None? then None else Build(name, args.value)
  {
    TrimShortens(s);
    SplitShort(inner, 0, 0, 0);
    Opens(name, inner);
  }

  lemma {:induction false} ParseSingle(s: string, t: CelType)
    requires !Simple(t) && !t.Map? && Trim(s) == Print(t) && Parse(Print(t.elem)) == Some(t.elem)
    ensures Parse(s) == Some(t)
  {
    PrintWrapped(t);
    ParseWrapped(s, NameOf(t), Inside(t));
    SplitPrinted(t.elem);
    assert |Split(Inside(t))[0]| < |s|;
    ParseOne(Print(t.elem), |s|);
    BuildBack(t);
  }

  lemma {:induction false} ParsePair(s: string, t: CelType)
    requires t.Map? && Trim(s) == Print(t)
    requires Parse(Print(t.key)) == Some(t.key) && Parse(" " + Print(t.value)) == Some(t.value)
    ensures Parse(s) == Some(t)
  {
    PrintWrapped(t);
    ParseWrapped(s, NameOf(t), Inside(t));
    PrintTight(t.value);
    PrintWhole(t.key, 0);
    PrintWhole(t.value, 0);
    SplitTwo(Print(t.key), Print(t.value));
    assert |Split(Inside(t))[0]| < |s| && |Split(Inside(t))[1]| < |s|;
    ParseTwo(Print(t.key), " " + Print(t.value), |s|);
    BuildBack(t);
  }

  lemma BuildBack(t: CelType)
    requires !Simple(t)
    ensures Build(NameOf(t), if t.Map? then [t.key, t.value] else [t.elem]) == Some(t)
  {
  }

  /** Parsing a printed type, outer white space aside, gives the type back. */
  lemma {:induction false} RoundTrip(t: CelType, s: string)
    requires Trim(s) == Print(t)
    ensures Parse(s) == Some(t)
    decreases t, 1
  {
    if Simple(t) {
      PrintSimple(t);
    } else if t.Map? {
      RoundTripArgument(t.key);
      RoundTripArgument(t.value);
      ParsePair(s, t);
    } else {
      RoundTripArgument(t.elem);
      ParseSingle(s, t);
    }
  }

  lemma {:induction false} SplitPrinted(t: CelType)
    ensures Split(Print(t)) == [Print(t)]
  {
    PrintTight(t);
    PrintWhole(t, 0);
    SplitOne(Print(t));
  }

  lemma {:induction false} RoundTripArgument(t: CelType)
    ensures Parse(Print(t)) == Some(t) && Parse(" " + Print(t)) == Some(t)
    decreases t, 2
  {
    PrintTight(t);
    TrimTight(Print(t));
    RoundTrip(t, Print(t));
    RoundTrip(t, " " + Print(t));
  }

  // ------------------------------------------------- what parses to a type

  /** `inner` is `pieces` between commas, with or without a comma and blanks
      behind the last one. */
  ghost predicate Arguments(inner: string, pieces: seq<string>) {
    inner == Join(pieces) || exists tail :: Trim(tail) == "" && inner == Join(pieces + [tail])
  }

  /** The texts for a type: the documented syntax, with white space around the
      text and around every argument, and a comma allowed after the last
      argument; none inside a name or before its parenthesis. */
  ghost predicate Denotes(s: string, t: CelType)
    decreases t
  {
    var u := Trim(s);
    if Simple(t) then u == Print(t)
    else
      && HasParens(u) && u[..IndexOpen(u)] == NameOf(t)
      && if t.Map? then exists a, b :: Arguments(Inner(u), [a, b]) && Denotes(a, t.key) && Denotes(b, t.value)
         else exists a :: Arguments(Inner(u), [a]) && Denotes(a, t.elem)
  }

  lemma {:induction false} ScanTrimStart(s: string, depth: int)
    ensures Scan(s, depth) == Scan(TrimStart(s), depth)
  {
    if s != [] && IsSpace(s[0]) {
      ScanTrimStart(s[1..], depth);
    }
  }

  lemma {:induction false} ScanTrimEnd(s: string, depth: int)
    ensures Scan(s, depth) == Scan(TrimEnd(s), depth)
  {
    if s != [] && IsSpace(s[|s| - 1]) {
      var init, last := s[..|s| - 1], s[|s| - 1];
      assert s == init + [last];
      ScanConcat(init, [last], depth);
      if Scan(init, depth).Some? {
        ScanOne(last, Scan(init, depth).value);
      }
      ScanTrimEnd(init, depth);
    }
  }

  /** Outer white space does not matter to the depth. */
  lemma {:induction false} ScanTrim(s: string, depth: int)
    ensures Scan(s, depth) == Scan(Trim(s), depth)
  {
    ScanTrimStart(s, depth);
    ScanTrimEnd(TrimStart(s), depth);
  }

  lemma {:induction false} ScanBlank(s: string, depth: int)
    requires Trim(s) == ""
    ensures Scan(s, depth) == Some(depth)
  {
    ScanTrim(s, depth);
  }

  lemma {:induction false} ScanComma(a: string, b: string, depth: int)
    requires depth != 0 && Scan(a, depth) == Some(depth) && Scan(b, depth) == Some(depth)
    ensures Scan(a + "," + b, depth) == Some(depth)
  {
    ScanOne(',', depth);
    ScanConcat(a, ",", depth);
    ScanConcat(a + ",", b, depth);
  }

  lemma Joins(a: string, b: string, c: string)
    ensures Join([a]) == a && Join([a, b]) == a + "," + b && Join([a, b, c]) == a + "," + (b + "," + c)
    ensures [a] + [b] == [a, b] && [a, b] + [c] == [a, b, c]
  {
    assert [a, b][1..] == [b] && [a, b, c][1..] == [b, c] && [b, c][1..] == [c];
    assert Join([b, c]) == b + "," + c;
  }

  /** Whole arguments in parentheses are whole. */
  lemma {:induction false} ArgumentsWhole(inner: string, pieces: seq<string>, depth: int)
    requires depth != 0 && 1 <= |pieces| <= 2 && Arguments(inner, pieces)
    requires forall k | 0 <= k < |pieces| :: Scan(pieces[k], depth) == Some(depth)
    ensures Scan(inner, depth) == Some(depth)
  {
    var a, b := pieces[0], pieces[|pieces| - 1];
    assert pieces == if |pieces| == 1 then [a] else [a, b];
    Joins(a, b, "");
    if |pieces| == 2 {
      ScanComma(a, b, depth);
    }
    if tail :| Trim(tail) == "" && inner == Join(pieces + [tail]) {
      ScanBlank(tail, depth);
      if |pieces| == 1 {
        Joins(a, tail, "");
        ScanComma(a, tail, depth);
      } else {
        Joins(a, b, tail);
        ScanComma(b, tail, depth);
        ScanComma(a, b + "," + tail, depth);
      }
    }
  }

  lemma {:induction false} Reopened(u: string)
    requires HasParens(u)
    ensures u == u[..IndexOpen(u)] + "(" + Inner(u) + ")" && '(' !in u[..IndexOpen(u)]
  {
  }

  lemma PlainName(t: CelType)
    requires !Simple(t)
    ensures forall k | 0 <= k < |NameOf(t)| :: NameOf(t)[k] !in "(),"
  {
  }

  lemma WrappedWhole(u: string, t: CelType, pieces: seq<string>, depth: nat)
    requires !Simple(t) && HasParens(u) && u[..IndexOpen(u)] == NameOf(t)
    requires 1 <= |pieces| <= 2 && Arguments(Inner(u), pieces)
    requires forall k | 0 <= k < |pieces| :: Scan(pieces[k], depth + 1) == Some(depth + 1)
    ensures Scan(u, depth) == Some(depth)
  {
    Reopened(u);
    PlainName(t);
    ArgumentsWhole(Inner(u), pieces, depth + 1);
    ScanWrapped(NameOf(t), Inner(u), depth);
  }

  lemma {:induction false} SimpleWhole(s: string, t: CelType, depth: nat)
    requires Simple(t) && Trim(s) == Print(t)
    ensures Scan(s, depth) == Some(depth) && Trim(s) != ""
  {
    PrintSimple(t);
    PrintTight(t);
    ScanPlain(Print(t), depth);
    ScanTrim(s, depth);
  }

  /** The inside of a text for a type with arguments, cut into those. */
  ghost predicate Cut(s: string, t: CelType, pieces: seq<string>) {
    var u := Trim(s);
    && !Simple(t) && HasParens(u) && u[..IndexOpen(u)] == NameOf(t)
    && 1 <= |pieces| <= 2 && Arguments(Inner(u), pieces)
  }

  lemma CutWhole(s: string, t: CelType, pieces: seq<string>, depth: nat)
    requires Cut(s, t, pieces)
    requires forall k | 0 <= k < |pieces| :: Scan(pieces[k], depth + 1) == Some(depth + 1)
    ensures Scan(s, depth) == Some(depth) && Trim(s) != ""
  {
    WrappedWhole(Trim(s), t, pieces, depth);
    ScanTrim(s, depth);
  }

  lemma CutSingle(s: string, t: CelType) returns (a: string)
    requires Denotes(s, t) && !Simple(t) && !t.Map?
    ensures Cut(s, t, [a]) && Denotes(a, t.elem)
  {
    a :| Arguments(Inner(Trim(s)), [a]) && Denotes(a, t.elem);
  }

  lemma CutPair(s: string, t: CelType) returns (a: string, b: string)
    requires Denotes(s, t) && t.Map?
    ensures Cut(s, t, [a, b]) && Denotes(a, t.key) && Denotes(b, t.value)
  {
    a, b :| Arguments(Inner(Trim(s)), [a, b]) && Denotes(a, t.key) && Denotes(b, t.value);
  }

  /** A text for a type is balanced and shows no comma at its own depth. */
  lemma {:induction false} DenotesWhole(s: string, t: CelType, depth: nat)
    requires Denotes(s, t)
    ensures Scan(s, depth) == Some(depth) && Trim(s) != ""
    decreases t
  {
    if Simple(t) {
      SimpleWhole(s, t, depth);
    } else if t.Map? {
      var a, b := CutPair(s, t);
      DenotesWhole(a, t.key, depth + 1);
      DenotesWhole(b, t.value, depth + 1);
      CutWhole(s, t, [a, b], depth);
    } else {
      var a := CutSingle(s, t);
      DenotesWhole(a, t.elem, depth + 1);
      CutWhole(s, t, [a], depth);
    }
  }

  /** Arguments are split as they were joined. */
  lemma ArgumentsSplit(inner: string, pieces: seq<string>)
    requires 1 <= |pieces| && Arguments(inner, pieces)
    requires forall k | 0 <= k < |pieces| :: Scan(pieces[k], 0) == Some(0) && Trim(pieces[k]) != ""
    ensures Split(inner) == pieces
  {
    if inner == Join(pieces) {
      SplitUnique(pieces);
    } else {
      var tail :| Trim(tail) == "" && inner == Join(pieces + [tail]);
      ScanBlank(tail, 0);
      SplitUnique(pieces + [tail]);
      assert (pieces + [tail])[..|pieces|] == pieces;
    }
  }

  lemma {:induction false} PairParses(s: string, t: CelType, a: string, b: string)
    requires t.Map? && HasParens(Trim(s)) && Trim(s)[..IndexOpen(Trim(s))] == NameOf(t)
    requires Split(Inner(Trim(s))) == [a, b] && Parse(a) == Some(t.key) && Parse(b) == Some(t.value)
    ensures Parse(s) == Some(t)
  {
    var u := Trim(s);
    Reopened(u);
    ParseWrapped(s, NameOf(t), Inner(u));
    BuildBack(t);
    assert |Split(Inner(u))[0]| < |s| && |Split(Inner(u))[1]| < |s|;
    ParseTwo(a, b, |s|);
  }

  lemma {:induction false} SingleParses(s: string, t: CelType, a: string)
    requires !Simple(t) && !t.Map? && HasParens(Trim(s)) && Trim(s)[..IndexOpen(Trim(s))] == NameOf(t)
    requires Split(Inner(Trim(s))) == [a] && Parse(a) == Some(t.elem)
    ensures Parse(s) == Some(t)
  {
    var u := Trim(s);
    Reopened(u);
    ParseWrapped(s, NameOf(t), Inner(u));
    BuildBack(t);
    assert |Split(Inner(u))[0]| < |s|;
    ParseOne(a, |s|);
  }

  lemma CutParses(s: string, t: CelType, pieces: seq<string>)
    requires Cut(s, t, pieces) && forall k | 0 <= k < |pieces| :: Scan(pieces[k], 0) == Some(0) && Trim(pieces[k]) != ""
    ensures Split(Inner(Trim(s))) == pieces
  {
    ArgumentsSplit(Inner(Trim(s)), pieces);
  }

  lemma {:induction false} DenotesParses(s: string, t: CelType)
    requires Denotes(s, t)
    ensures Parse(s) == Some(t)
    decreases t
  {
    if Simple(t) {
      PrintSimple(t);
    } else if t.Map? {
      var a, b := CutPair(s, t);
      DenotesWhole(a, t.key, 0);
      DenotesWhole(b, t.value, 0);
      CutParses(s, t, [a, b]);
      DenotesParses(a, t.key);
      DenotesParses(b, t.value);
      PairParses(s, t, a, b);
    } else {
      var a := CutSingle(s, t);
      DenotesWhole(a, t.elem, 0);
      CutParses(s, t, [a]);
      DenotesParses(a, t.elem);
      SingleParses(s, t, a);
    }
  }

  lemma {:induction false} ParseAllSplits(args: seq<string>, bound: nat)
    requires args != [] && forall k | 0 <= k < |args| :: |args[k]| < bound
    requires ParseAll(args, bound).Some?
    ensures var init, last := ParseAll(args[..|args| - 1], bound), Parse(args[|args| - 1]);
            init.Some? && last.Some? && ParseAll(args, bound).value == init.value + [last.value]
  {
  }

  ghost predicate Parsed(args: seq<string>, types: seq<CelType>) {
    |types| == |args| && forall k | 0 <= k < |args| :: Parse(args[k]) == Some(types[k])
  }

  lemma {:induction false} ParsedNext(args: seq<string>, types: seq<CelType>, arg: string, t: CelType)
    requires Parsed(args, types) && Parse(arg) == Some(t)
    ensures Parsed(args + [arg], types + [t])
  {
  }

  lemma {:induction false} ParseAllMeans(args: seq<string>, bound: nat)
    requires forall k | 0 <= k < |args| :: |args[k]| < bound
    requires ParseAll(args, bound).Some?
    ensures Parsed(args, ParseAll(args, bound).value)
    decreases |args|
  {
    if args != [] {
      var init, last := args[..|args| - 1], args[|args| - 1];
      ParseAllSplits(args, bound);
      ParseAllMeans(init, bound);
      ParsedNext(init, ParseAll(init, bound).value, last, Parse(last).value);
      assert args == init + [last];
    }
  }

  lemma KeywordPrints(u: string)
    requires Keyword(u).Some?
    ensures Simple(Keyword(u).value) && Print(Keyword(u).value) == u
  {
  }

  lemma BuildMeans(name: string, args: seq<CelType>, t: CelType)
    requires Build(name, args) == Some(t)
    ensures !Simple(t) && name == NameOf(t) && args == if t.Map? then [t.key, t.value] else [t.elem]
  {
  }

  lemma SplitIsArguments(inner: string)
    requires Split(inner) != []
    ensures Arguments(inner, Split(inner))
  {
    var tail := SplitJoins(inner, 0, 0, 0);
    assert inner[0..] == inner;
  }

  /** A parsed type with arguments comes from a cut into parsed arguments. */
  lemma ParsedCut(s: string, t: CelType) returns (pieces: seq<string>)
    requires Parse(s) == Some(t) && Keyword(Trim(s)).None?
    ensures Cut(s, t, pieces)
    ensures if t.Map? then |pieces| == 2 && Parse(pieces[0]) == Some(t.key) && Parse(pieces[1]) == Some(t.value)
            else |pieces| == 1 && Parse(pieces[0]) == Some(t.elem)
  {
    var u := Trim(s);
    TrimShortens(s);
    SplitShort(Inner(u), 0, 0, 0);
    pieces := Split(Inner(u));
    ParseAllMeans(pieces, |s|);
    BuildMeans(u[..IndexOpen(u)], ParseAll(pieces, |s|).value, t);
    SplitIsArguments(Inner(u));
  }

  lemma {:induction false} CutDenotes(s: string, t: CelType, pieces: seq<string>)
    requires Cut(s, t, pieces)
    requires if t.Map? then |pieces| == 2 && Denotes(pieces[0], t.key) && Denotes(pieces[1], t.value)
             else |pieces| == 1 && Denotes(pieces[0], t.elem)
    ensures Denotes(s, t)
  {
    assert pieces == if t.Map? then [pieces[0], pieces[1]] else [pieces[0]];
  }

  lemma {:induction false} ParsesDenotes(s: string, t: CelType)
    requires Parse(s) == Some(t)
    ensures Denotes(s, t)
    decreases t
  {
    if Keyword(Trim(s)).Some? {
      KeywordPrints(Trim(s));
    } else {
      var pieces := ParsedCut(s, t);
      if t.Map? {
        ParsesDenotes(pieces[0], t.key);
        ParsesDenotes(pieces[1], t.value);
      } else {
        ParsesDenotes(pieces[0], t.elem);
      }
      CutDenotes(s, t, pieces);
    }
  }

  /** Exactly the texts for a type parse to it. */
  lemma {:induction false} ParsesExactly(s: string, t: CelType)
    ensures Parse(s) == Some(t) <==> Denotes(s, t)
  {
    if Denotes(s, t) {
      DenotesParses(s, t);
    }
    if Parse(s) == Some(t) {
      ParsesDenotes(s, t);
    }
  }
}
