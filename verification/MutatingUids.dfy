/** Accessor UIDs `<configuration>/<webhook>/<n>` identify webhooks. */
module MutatingUids {
  import opened Prelude
  import opened MutatingDispatch

  /** Neither name starts with the other and a slash, and they differ. */
  predicate Apart(c: string, d: string) {
    c != d && !(c + "/" <= d) && !(d + "/" <= c)
  }

  /** Any two configuration names are apart; webhook names are unrestricted and
      may repeat.  Different names without slashes are apart. */
  ghost predicate WellNamed(configs: seq<Config>) {
    forall i, j | 0 <= i < j < |configs| :: Apart(configs[i].name, configs[j].name)
  }

  function Uids(hooks: seq<Hook>): seq<string> {
    seq(|hooks|, i requires 0 <= i < |hooks| => hooks[i].uid)
  }

  lemma {:induction false} DecimalInjective(m: nat, n: nat)
    requires Decimal(m) == Decimal(n)
    ensures m == n
  {
    var s, t := Decimal(m), Decimal(n);
    assert s[|s| - 1] == t[|t| - 1];
    assert m % 10 == n % 10;
    if m >= 10 && n >= 10 {
      assert Decimal(m / 10) == s[..|s| - 1] == t[..|t| - 1] == Decimal(n / 10);
      DecimalInjective(m / 10, n / 10);
    }
  }

  lemma Nested(a: string, x: string, b: string, y: string)
    requires a + "/" + x == b + "/" + y && |a| < |b|
    ensures a + "/" <= b
  {
    var s := a + "/" + x;
    assert a + "/" == s[..|a| + 1] && b == s[..|b|];
  }

  /** Texts that are apart are still apart after a slash and anything more. */
  lemma SplitFirst(a: string, x: string, b: string, y: string)
    requires a == b || Apart(a, b)
    requires a + "/" + x == b + "/" + y
    ensures a == b && x == y
  {
    if |a| < |b| {
      Nested(a, x, b, y);
    } else if |b| < |a| {
      Nested(b, y, a, x);
    }
    var s := a + "/" + x;
    assert a == s[..|a|] && b == s[..|b|] && x == s[|a| + 1..] && y == s[|b| + 1..];
  }

  /** Two texts split at a last slash, with slash-free tails. */
  lemma SplitLast(a: string, x: string, b: string, y: string)
    requires '/' !in x && '/' !in y
    requires a + "/" + x == b + "/" + y
    ensures a == b && x == y
  {
    var s := a + "/" + x;
    assert s[|a|] == '/' && s[|b|] == '/';
    assert |a| == |b|;
    assert a == s[..|a|] && b == s[..|b|];
    assert x == s[|a| + 1..] && y == s[|b| + 1..];
  }

  /** A UID determines its three parts when the configuration names are apart. */
  lemma UidInjective(c: string, w: string, n: nat, c': string, w': string, n': nat)
    requires c == c' || Apart(c, c')
    requires Uid(c, w, n) == Uid(c', w', n')
    ensures c == c' && w == w' && n == n'
  {
    assert Uid(c, w, n) == c + "/" + (w + "/" + Decimal(n));
    assert Uid(c', w', n') == c' + "/" + (w' + "/" + Decimal(n'));
    SplitFirst(c, w + "/" + Decimal(n), c', w' + "/" + Decimal(n'));
    SplitLast(w, Decimal(n), w', Decimal(n'));
    DecimalInjective(n, n');
  }

  /** Webhook names that collide under configuration names that are not apart. */
  lemma Collision(c: string, d: string) returns (w: string, w': string)
    requires !Apart(c, d)
    ensures Uid(c, w, 0) == Uid(d, w', 0)
  {
    w, w' := "", "";
    if c + "/" <= d {
      w := d[|c| + 1..] + "/";
      assert d == c + "/" + d[|c| + 1..];
      assert c + "/" + w == d + "/" + w';
    } else if d + "/" <= c {
      w' := c[|d| + 1..] + "/";
      assert c == d + "/" + c[|d| + 1..];
      assert d + "/" + w' == c + "/" + w;
    }
  }

  /** Two different configuration names can share a UID exactly when one of them
      starts with the other and a slash. */
  lemma SlashesCollide(c: string, d: string)
    requires c != d
    ensures (exists w, n: nat, w', n': nat :: Uid(c, w, n) == Uid(d, w', n')) <==> c + "/" <= d || d + "/" <= c
  {
    if Apart(c, d) {
      forall w, n: nat, w', n': nat ensures Uid(c, w, n) != Uid(d, w', n') {
        if Uid(c, w, n) == Uid(d, w', n') {
          UidInjective(c, w, n, d, w', n');
        }
      }
    } else {
      var w, w' := Collision(c, d);
    }
  }

  /** Repeated names get increasing suffixes. */
  lemma {:induction false} CountGrows(ws: seq<Webhook>, p: nat, q: nat)
    requires p < q < |ws| && ws[p].name == ws[q].name
    ensures CountNamed(ws[..p], ws[p].name) < CountNamed(ws[..q], ws[p].name)
  {
    assert ws[..p + 1][..p] == ws[..p];
    CountMonotone(ws, p + 1, q, ws[p].name);
  }

  lemma {:induction false} CountMonotone(ws: seq<Webhook>, p: nat, q: nat, name: string)
    requires p <= q <= |ws|
    ensures CountNamed(ws[..p], name) <= CountNamed(ws[..q], name)
    decreases q
  {
    if p < q {
      assert ws[..q][..q - 1] == ws[..q - 1];
      CountMonotone(ws, p, q - 1, name);
    }
  }

  function WebhooksOf(c: Config): seq<Webhook> {
    if c.webhooks.Some? then c.webhooks.value else []
  }

  lemma {:induction false} HooksFromAt(name: string, ws: seq<Webhook>, cfg: nat, pos: nat, k: nat)
    requires pos <= |ws| && k < |HooksFrom(name, ws, cfg, pos)|
    ensures |HooksFrom(name, ws, cfg, pos)| == |ws| - pos
    ensures HooksFrom(name, ws, cfg, pos)[k] == HookAt(name, ws, cfg, pos + k)
    decreases |ws| - pos
  {
    HooksFromLength(name, ws, cfg, pos);
    if k > 0 {
      HooksFromLength(name, ws, cfg, pos + 1);
      HooksFromAt(name, ws, cfg, pos + 1, k - 1);
    }
  }

  lemma {:induction false} HooksFromLength(name: string, ws: seq<Webhook>, cfg: nat, pos: nat)
    requires pos <= |ws|
    ensures |HooksFrom(name, ws, cfg, pos)| == |ws| - pos
    decreases |ws| - pos
  {
    if pos < |ws| {
      HooksFromLength(name, ws, cfg, pos + 1);
    }
  }

  /** Where a flattened hook comes from. */
  lemma {:induction false} Origin(configs: seq<Config>, cfg: nat, k: nat) returns (c: nat, p: nat)
    requires cfg <= |configs| && k < |Flatten(configs, cfg)|
    ensures cfg <= c < |configs| && p < |WebhooksOf(configs[c])|
    ensures Flatten(configs, cfg)[k] == HookAt(configs[c].name, WebhooksOf(configs[c]), c, p)
    decreases |configs| - cfg
  {
    var here := HooksFrom(configs[cfg].name, WebhooksOf(configs[cfg]), cfg, 0);
    assert Flatten(configs, cfg) == here + Flatten(configs, cfg + 1);
    if k < |here| {
      HooksFromAt(configs[cfg].name, WebhooksOf(configs[cfg]), cfg, 0, k);
      c, p := cfg, k;
    } else {
      c, p := Origin(configs, cfg + 1, k - |here|);
    }
  }

  lemma SameUidSamePlace(configs: seq<Config>, c: nat, p: nat, c': nat, p': nat)
    requires WellNamed(configs) && c < |configs| && c' < |configs|
    requires p < |WebhooksOf(configs[c])| && p' < |WebhooksOf(configs[c'])|
    requires HookAt(configs[c].name, WebhooksOf(configs[c]), c, p).uid ==
             HookAt(configs[c'].name, WebhooksOf(configs[c']), c', p').uid
    ensures c == c' && p == p'
  {
    var ws, ws' := WebhooksOf(configs[c]), WebhooksOf(configs[c']);
    UidInjective(configs[c].name, ws[p].name, CountNamed(ws[..p], ws[p].name),
                 configs[c'].name, ws'[p'].name, CountNamed(ws'[..p'], ws'[p'].name));
    assert c == c';
    if p < p' {
      CountGrows(ws, p, p');
    } else if p' < p {
      CountGrows(ws, p', p);
    }
  }

  /** Positions grow along the flattened list. */
  lemma {:induction false} Ascending(configs: seq<Config>, cfg: nat, i: nat, j: nat)
    requires cfg <= |configs| && i < j < |Flatten(configs, cfg)|
    ensures var a, b := Flatten(configs, cfg)[i], Flatten(configs, cfg)[j];
            a.cfg < b.cfg || (a.cfg == b.cfg && a.pos < b.pos)
    decreases |configs| - cfg
  {
    var here := HooksFrom(configs[cfg].name, WebhooksOf(configs[cfg]), cfg, 0);
    assert Flatten(configs, cfg) == here + Flatten(configs, cfg + 1);
    if i < |here| {
      HooksFromAt(configs[cfg].name, WebhooksOf(configs[cfg]), cfg, 0, i);
    }
    if j < |here| {
      HooksFromAt(configs[cfg].name, WebhooksOf(configs[cfg]), cfg, 0, j);
    } else {
      var c, p := Origin(configs, cfg + 1, j - |here|);
      if i >= |here| {
        Ascending(configs, cfg + 1, i - |here|, j - |here|);
      }
    }
  }

  /** Every webhook of well-named configurations has its own UID, repeated
      webhook names included. */
  lemma {:induction false} UidsDistinct(configs: seq<Config>)
    requires WellNamed(configs)
    ensures Distinct(Uids(Flatten(configs, 0)))
  {
    var hooks := Flatten(configs, 0);
    forall i, j | 0 <= i < j < |hooks| ensures hooks[i].uid != hooks[j].uid {
      var c, p := Origin(configs, 0, i);
      var c', p' := Origin(configs, 0, j);
      Ascending(configs, 0, i, j);
      if hooks[i].uid == hooks[j].uid {
        SameUidSamePlace(configs, c, p, c', p');
      }
    }
  }

  function Names(configs: seq<Config>): seq<string> {
    seq(|configs|, i requires 0 <= i < |configs| => configs[i].name)
  }

  /** Every webhook is somewhere in the flattened list. */
  lemma {:induction false} Lands(configs: seq<Config>, cfg: nat, c: nat, p: nat) returns (k: nat)
    requires cfg <= c < |configs| && p < |WebhooksOf(configs[c])|
    ensures k < |Flatten(configs, cfg)| && Flatten(configs, cfg)[k] == HookAt(configs[c].name, WebhooksOf(configs[c]), c, p)
    decreases |configs| - cfg
  {
    var here := HooksFrom(configs[cfg].name, WebhooksOf(configs[cfg]), cfg, 0);
    assert Flatten(configs, cfg) == here + Flatten(configs, cfg + 1);
    if cfg == c {
      HooksFromLength(configs[c].name, WebhooksOf(configs[c]), c, 0);
      HooksFromAt(configs[c].name, WebhooksOf(configs[c]), c, 0, p);
      k := p;
    } else {
      k := Lands(configs, cfg + 1, c, p);
      k := k + |here|;
    }
  }

  /** One webhook of a given name. */
  function Single(name: string): Option<seq<Webhook>> {
    Some([Webhook(name, None, None, NoEffects)])
  }

  /** The configuration names decide: whatever webhooks they have, all UIDs
      differ, exactly when any two names are apart. */
  lemma NamesDecide(configs: seq<Config>)
    ensures WellNamed(configs) <==>
            forall others: seq<Config> | Names(others) == Names(configs) :: Distinct(Uids(Flatten(others, 0)))
  {
    if WellNamed(configs) {
      forall others: seq<Config> | Names(others) == Names(configs) ensures Distinct(Uids(Flatten(others, 0))) {
        assert |others| == |Names(others)|;
        assert forall i | 0 <= i < |others| :: others[i].name == Names(others)[i] == configs[i].name;
        UidsDistinct(others);
      }
    } else {
      var others := CollidingConfigs(configs);
      assert Names(others) == Names(configs);
    }
  }

  lemma CollidingConfigs(configs: seq<Config>) returns (others: seq<Config>)
    requires !WellNamed(configs)
    ensures Names(others) == Names(configs) && !Distinct(Uids(Flatten(others, 0)))
  {
    var i, j :| 0 <= i < j < |configs| && !Apart(configs[i].name, configs[j].name);
    var w, w' := Collision(configs[i].name, configs[j].name);
    others := configs[i := configs[i].(webhooks := Single(w))][j := configs[j].(webhooks := Single(w'))];
    assert WebhooksOf(others[i])[..0] == WebhooksOf(others[j])[..0] == [];
    var k := Lands(others, 0, i, 0);
    var l := Lands(others, 0, j, 0);
    var uids := Uids(Flatten(others, 0));
    assert uids[k] == uids[l] && k != l;
  }
}
