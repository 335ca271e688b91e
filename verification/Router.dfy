/** The router (internal/router/router.go): first matching rule in declaration order, round robin
    among the streams of the rule that matched. */
module Router {
  import opened Wrappers

  /** ingress, identity and target: empty matches anything. */
  datatype Rule = Rule(ingress: string, identity: string, target: string, dialer: string, streams: seq<string>)

  datatype Meta = Meta(listener: string, identity: string, target: string)

  datatype Decision = Decision(dialer: string, stream: string, rule: Rule)

  /** A match of the rule at index, at position pos of its streams. */
  datatype Hit = Hit(index: nat, pos: nat)
  datatype Table = Table(rules: seq<Rule>, cursors: map<nat, nat>)
  {
    function Cursor(i: nat): nat { if i in cursors then cursors[i] else 0 }

    /** No two stored rules are equivalent. */
    ghost predicate Distinct() {
      forall i, j :: 0 <= i < j < |rules| ==> rules[i] != rules[j]
    }
  }

  const EMPTY := Table([], map[])

  predicate Matches(rule: Rule, m: Meta) {
    && (rule.ingress == "" || rule.ingress == m.listener)
    && (rule.identity == "" || rule.identity == m.identity)
    && (rule.target == "" || rule.target == m.target)
  }

  /** Field by field: a set field is matched by its own value only, an empty one by every value, and a
      request with the rule's own values in its set fields is matched. */
  lemma MatchesFieldwise(rule: Rule, m: Meta)
    ensures rule.ingress != "" && m.listener != rule.ingress ==> !Matches(rule, m)
    ensures rule.identity != "" && m.identity != rule.identity ==> !Matches(rule, m)
    ensures rule.target != "" && m.target != rule.target ==> !Matches(rule, m)
    ensures forall v :: rule.ingress == "" ==> Matches(rule, m) == Matches(rule, m.(listener := v))
    ensures forall v :: rule.identity == "" ==> Matches(rule, m) == Matches(rule, m.(identity := v))
    ensures forall v :: rule.target == "" ==> Matches(rule, m) == Matches(rule, m.(target := v))
    ensures Matches(rule, Meta(rule.ingress, rule.identity, rule.target))
  {
  }

  // ---------- what the operations do to a table ----------

  function IndexOf(rules: seq<Rule>, rule: Rule): (r: Option<nat>)
    ensures r.None? <==> rule !in rules
    ensures r.Some? ==> r.value < |rules| && rules[r.value] == rule && forall j :: 0 <= j < r.value ==> rules[j] != rule
  {
    if rules == [] then None
    else if rules[0] == rule then Some(0)
    else
      match IndexOf(rules[1..], rule)
      case None => None
      case Some(i) => Some(i + 1)
  }

  function Added(t: Table, rule: Rule): Table {
    if rule in t.rules then t else t.(rules := t.rules + [rule])
  }

  function Removed(t: Table, rule: Rule): Table {
    match IndexOf(t.rules, rule)
    case None => t
    case Some(i) => Table(t.rules[..i] + t.rules[i + 1..], t.cursors - {i})
  }

  function FirstMatch(rules: seq<Rule>, m: Meta): (r: Option<nat>)
    ensures r.None? <==> forall rule <- rules :: !Matches(rule, m)
    ensures r.Some? ==> r.value < |rules| && Matches(rules[r.value], m)
                        && forall j :: 0 <= j < r.value ==> !Matches(rules[j], m)
  {
    if rules == [] then None
    else if Matches(rules[0], m) then Some(0)
    else
      match FirstMatch(rules[1..], m)
      case None => None
      case Some(i) => Some(i + 1)
  }

  function HitOf(t: Table, m: Meta): Option<Hit> {
    match FirstMatch(t.rules, m)
    case None => None
    case Some(i) =>
      var n := |t.rules[i].streams|;
      Some(Hit(i, if n == 0 then 0 else t.Cursor(i) % n))
  }

  function Matched(t: Table, m: Meta): Table {
    match FirstMatch(t.rules, m)
    case None => t
    case Some(i) =>
      var n := |t.rules[i].streams|;
      if n == 0 then t else t.(cursors := t.cursors[i := (t.Cursor(i) + 1) % n])
  }

  // ---------- runs ----------

  datatype Op = Add(rule: Rule) | Remove(rule: Rule) | Match(m: Meta)

  function Step(t: Table, op: Op): Table {
    match op
    case Add(rule) => Added(t, rule)
    case Remove(rule) => Removed(t, rule)
    case Match(m) => Matched(t, m)
  }

  function Run(t: Table, ops: seq<Op>): Table
    decreases |ops|
  {
    if ops == [] then t else Run(Step(t, ops[0]), ops[1..])
  }

  /** The stream positions handed out by rule i over a run, in order. */
  function Hits(t: Table, ops: seq<Op>, i: nat): seq<nat>
    decreases |ops|
  {
    if ops == [] then []
    else
      var later := Hits(Step(t, ops[0]), ops[1..], i);
      if ops[0].Match? && HitOf(t, ops[0].m).Some? && HitOf(t, ops[0].m).value.index == i
      then [HitOf(t, ops[0].m).value.pos] + later
      else later
  }

  lemma StepKeepsDistinct(t: Table, op: Op)
    requires t.Distinct()
    ensures Step(t, op).Distinct()
  {
  }

  /** No run of any operations ever stores two equivalent rules. */
  lemma {:induction false} NeverTwice(ops: seq<Op>, t: Table)
    requires t.Distinct()
    ensures Run(t, ops).Distinct()
  {
    if ops != [] {
      StepKeepsDistinct(t, ops[0]);
      NeverTwice(ops[1..], Step(t, ops[0]));
    }
  }

  function Without(rules: seq<Rule>, rule: Rule): seq<Rule> {
    if rules == [] then []
    else
      var rest := Without(rules[1..], rule);
      if rules[0] == rule then rest else [rules[0]] + rest
  }

  lemma {:induction false} WithoutAbsent(rules: seq<Rule>, rule: Rule)
    requires rule !in rules
    ensures Without(rules, rule) == rules
  {
    if rules != [] { WithoutAbsent(rules[1..], rule); }
  }

  lemma {:induction false} WithoutParts(a: seq<Rule>, b: seq<Rule>, rule: Rule)
    ensures Without(a + b, rule) == Without(a, rule) + Without(b, rule)
  {
    if a == [] {
      assert a + b == b;
    } else {
      assert (a + b)[1..] == a[1..] + b;
      WithoutParts(a[1..], b, rule);
    }
  }

  /** So Remove takes the rule out altogether and keeps every other one, in order. */
  lemma RemoveTakesOut(t: Table, rule: Rule)
    requires t.Distinct()
    ensures Removed(t, rule).rules == Without(t.rules, rule)
  {
    match IndexOf(t.rules, rule)
    case None => WithoutAbsent(t.rules, rule);
    case Some(i) =>
      var front, back := t.rules[..i], t.rules[i + 1..];
      assert t.rules == front + ([rule] + back);
      assert rule !in back by {
        assert forall k :: 0 <= k < |back| ==> back[k] == t.rules[i + 1 + k];
      }
      WithoutParts(front, [rule] + back, rule);
      WithoutAbsent(front, rule);
      WithoutAbsent(back, rule);
      assert ([rule] + back)[1..] == back;
  }

  /** And it undoes the Add of a new rule. */
  lemma RemoveUndoesAdd(t: Table, rule: Rule)
    requires rule !in t.rules
    ensures Removed(Added(t, rule), rule).rules == t.rules
  {
    var added := Added(t, rule).rules;
    assert added[..|t.rules|] == t.rules;
    FirstIs(added, rule, |t.rules|);
    assert added[|t.rules| + 1..] == [];
  }

  // ---------- fairness ----------

  lemma MulAtLeast(k: int, n: nat)
    requires 1 <= k
    ensures n <= k * n
  {
  }

  lemma ModUnique(x: nat, q: int, n: nat, r: nat)
    requires 0 < n && x == q * n + r && r < n
    ensures x % n == r
  {
    var d := q - x / n;
    assert d * n == x % n - r;
    if d >= 1 { MulAtLeast(d, n); } else if d <= -1 { MulAtLeast(-d, n); }
  }

  lemma ModNext(c: nat, k: nat, n: nat)
    requires 0 < n
    ensures ((c + 1) % n + k) % n == (c + 1 + k) % n
  {
    var x := (c + 1) % n + k;
    var q, q' := (c + 1) / n, x / n;
    assert c + 1 + k == (q + q') * n + x % n;
    ModUnique(c + 1 + k, q + q', n, x % n);
  }

  /** From any table, over any run without Remove, rule i hands out its stream positions in cyclic
      order, however other rules' matches and Adds fall between. */
  lemma {:induction false} HitsCycle(t: Table, ops: seq<Op>, i: nat, k: nat)
    requires i < |t.rules| && 0 < |t.rules[i].streams|
    requires forall op <- ops :: !op.Remove?
    requires k < |Hits(t, ops, i)|
    ensures Hits(t, ops, i)[k] == (t.Cursor(i) + k) % |t.rules[i].streams|
    decreases |ops|
  {
    var n := |t.rules[i].streams|;
    var t' := Step(t, ops[0]);
    assert t'.rules[i] == t.rules[i];
    if ops[0].Match? && HitOf(t, ops[0].m).Some? && HitOf(t, ops[0].m).value.index == i {
      assert t'.Cursor(i) == (t.Cursor(i) + 1) % n;
      if 0 < k {
        HitsCycle(t', ops[1..], i, k - 1);
        ModNext(t.Cursor(i), k - 1, n);
      }
    } else {
      assert t'.Cursor(i) == t.Cursor(i);
      HitsCycle(t', ops[1..], i, k);
    }
  }

  /** Any n numbers in a row take each residue of n, and no two of them the same. */
  lemma OneTurn(c: nat, n: nat, p: nat) returns (d: nat)
    requires p < n
    ensures d < n && (c + d) % n == p
  {
    var r, q := c % n, c / n;
    d := if r <= p then p - r else p - r + n;
    ModUnique(c + d, if r <= p then q else q + 1, n, p);
  }

  lemma NoTwoAlike(c: nat, n: nat, d: nat, e: nat)
    requires d < e < d + n
    ensures (c + d) % n != (c + e) % n
  {
    var r, q := (c + d) % n, (c + d) / n;
    var x := r + (e - d);
    ModUnique(c + e, if x < n then q else q + 1, n, if x < n then x else x - n);
  }

  /** Hence any n consecutive hits of a rule with n streams give each position exactly once. */
  lemma Fair(t: Table, ops: seq<Op>, i: nat, j: nat, p: nat) returns (k: nat)
    requires i < |t.rules| && p < |t.rules[i].streams|
    requires forall op <- ops :: !op.Remove?
    requires j + |t.rules[i].streams| <= |Hits(t, ops, i)|
    ensures var n := |t.rules[i].streams|;
            && j <= k < j + n && Hits(t, ops, i)[k] == p
            && forall k' :: j <= k' < j + n && Hits(t, ops, i)[k'] == p ==> k' == k
  {
    hide Hits;
    var n, c := |t.rules[i].streams|, t.Cursor(i);
    var d := OneTurn(c + j, n, p);
    k := j + d;
    HitsCycle(t, ops, i, k);
    forall k' | j <= k' < j + n && k' != k ensures Hits(t, ops, i)[k'] != p {
      HitsCycle(t, ops, i, k');
      if k' < k { NoTwoAlike(c, n, k', k); } else { NoTwoAlike(c, n, k, k'); }
    }
  }

  /** Remove forgets the cursor of its own index but not that the rules behind it have moved: a
      rule behind keeps its turn just when the cursor it falls on agrees with the one it leaves. */
  lemma RemoveKeepsTurn(t: Table, rule: Rule, j: nat, m: Meta)
    requires IndexOf(t.rules, rule).Some? && IndexOf(t.rules, rule).value < j < |t.rules|
    requires FirstMatch(t.rules, m) == Some(j) && t.rules[j].streams != []
    ensures var k, n := IndexOf(t.rules, rule).value, |t.rules[j].streams|;
            var after := HitOf(Removed(t, rule), m);
            && after.Some? && after.value.index == j - 1
            && (after.value.pos == HitOf(t, m).value.pos
                <==> (if j == k + 1 then 0 else t.Cursor(j - 1)) % n == t.Cursor(j) % n)
  {
    hide IndexOf, FirstMatch, Matches;
    var after := Removed(t, rule);
    assert after.rules[j - 1] == t.rules[j];
    assert forall i :: 0 <= i < j - 1 ==> after.rules[i] in t.rules[..j];
    FirstMatchIs(after.rules, m, j - 1);
  }

  /** So removing one rule can make another give the same stream twice in a row. */
  lemma UnfairAcrossRemove(a: Rule, b: Rule, m: Meta)
    requires !Matches(a, m) && Matches(b, m) && |b.streams| == 2
    ensures var before := Table([a, b], map[]);
            var after := Removed(Matched(before, m), a);
            HitOf(before, m) == Some(Hit(1, 0)) && HitOf(after, m) == Some(Hit(0, 0))
  {
    var before := Table([a, b], map[]);
    assert FirstMatch(before.rules, m) == Some(1) by {
      assert before.rules[0] == a && before.rules[1] == b;
    }
    var hit := Matched(before, m);
    assert hit == Table([a, b], map[1 := 1]);
    assert IndexOf(hit.rules, a) == Some(0);
    assert Removed(hit, a) == Table([b], map[1 := 1]);
    assert FirstMatch([b], m) == Some(0);
  }

  // ---------- the router ----------

  class Router {
    var rules: seq<Rule>
    var cursors: map<nat, nat>

    function View(): Table
      reads this
    {
      Table(rules, cursors)
    }

    constructor ()
      ensures View() == EMPTY
    {
      rules, cursors := [], map[];
    }

    /** Equivalence of rules is equality, streams in order included. */
    static method SameRule(a: Rule, b: Rule) returns (same: bool)
      ensures same <==> a == b
    {
      if a.ingress != b.ingress || a.identity != b.identity || a.target != b.target ||
         a.dialer != b.dialer || |a.streams| != |b.streams| {
        return false;
      }
      for i := 0 to |a.streams|
        invariant a.streams[..i] == b.streams[..i]
      {
        if a.streams[i] != b.streams[i] {
          return false;
        }
      }
      assert a.streams == a.streams[..|a.streams|] == b.streams;
      return true;
    }

    method Add(rule: Rule) returns (ok: bool)
      modifies this
      ensures View() == Added(old(View()), rule)
      ensures ok <==> rule !in old(rules)
    {
      for i := 0 to |rules|
        invariant View() == old(View())
        invariant forall j :: 0 <= j < i ==> rules[j] != rule
      {
        var same := SameRule(rules[i], rule);
        if same {
          return false;
        }
      }
      rules := rules + [rule];
      return true;
    }

    method Seed(seed: seq<Rule>)
      modifies this
      ensures View() == Run(old(View()), Adds(seed))
    {
      for i := 0 to |seed|
        invariant Run(View(), Adds(seed[i..])) == Run(old(View()), Adds(seed))
      {
        var ok := Add(seed[i]);
        assert seed[i..][1..] == seed[i + 1..];
      }
    }

    method Remove(rule: Rule) returns (ok: bool)
      modifies this
      ensures View() == Removed(old(View()), rule)
      ensures ok <==> rule in old(rules)
    {
      for i := 0 to |rules|
        invariant View() == old(View())
        invariant forall j :: 0 <= j < i ==> rules[j] != rule
      {
        var same := SameRule(rules[i], rule);
        if same {
          FirstIs(rules, rule, i);
          rules := rules[..i] + rules[i + 1..];
          cursors := cursors - {i};
          return true;
        }
      }
      return false;
    }

    /** The lowest-index matching rule decides; its streams take turns. */
    method Match(m: Meta) returns (d: Option<Decision>)
      modifies this
      ensures View() == Matched(old(View()), m) && rules == old(rules)
      ensures d.None? <==> forall rule <- rules :: !Matches(rule, m)
      ensures match HitOf(old(View()), m)
              case None => d.None?
              case Some(h) =>
                && d.Some? && d.value.rule == rules[h.index] && d.value.dialer == rules[h.index].dialer
                && d.value.stream == if rules[h.index].streams == [] then "" else rules[h.index].streams[h.pos]
    {
      for i := 0 to |rules|
        invariant View() == old(View())
        invariant forall j :: 0 <= j < i ==> !Matches(rules[j], m)
      {
        var rule := rules[i];
        if !Matches(rule, m) {
          continue;
        }
        FirstMatchIs(rules, m, i);
        var n := |rule.streams|;
        var stream := "";
        if n > 0 {
          stream := rule.streams[View().Cursor(i) % n];
          cursors := cursors[i := (View().Cursor(i) + 1) % n];
        }
        return Some(Decision(rule.dialer, stream, rule));
      }
      return None;
    }
  }

  function Adds(rules: seq<Rule>): seq<Op> {
    if rules == [] then [] else [Add(rules[0])] + Adds(rules[1..])
  }

  lemma FirstIs(rules: seq<Rule>, rule: Rule, i: nat)
    requires i < |rules| && rules[i] == rule && forall j :: 0 <= j < i ==> rules[j] != rule
    ensures IndexOf(rules, rule) == Some(i)
  {
    assert rules[i] in rules;
  }

  lemma FirstMatchIs(rules: seq<Rule>, m: Meta, i: nat)
    requires i < |rules| && Matches(rules[i], m)
    requires forall j :: 0 <= j < i ==> !Matches(rules[j], m)
    ensures FirstMatch(rules, m) == Some(i)
  {
    assert rules[i] in rules;
  }
}
