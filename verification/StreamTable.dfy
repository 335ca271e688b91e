/** The server's table of registered streams (internal/handler/star/streamtable.go): one index by
    assigned number, one by name. */
module StreamTable {
  import opened Wrappers

  const WRAP := 0x1_0000_0000

  /** client names the control session that carries the stream. */
  datatype Entry = Entry(id: nat, proxy: string, stream: string, client: nat)

  function Key(proxy: string, stream: string): string {
    proxy + "/" + stream
  }

  function KeyOf(e: Entry): string {
    Key(e.proxy, e.stream)
  }

  datatype Table = Table(counter: nat, byId: map<nat, Entry>, byName: map<string, Entry>)
  {
    /** Both indexes hold the same entries, each under its own number and its own name. */
    ghost predicate Agree() {
      && (forall id <- byId :: byId[id].id == id && KeyOf(byId[id]) in byName && byName[KeyOf(byId[id])] == byId[id])
      && (forall name <- byName :: KeyOf(byName[name]) == name && byName[name].id in byId && byId[byName[name].id] == byName[name])
    }

    ghost predicate Valid() {
      Agree() && counter < WRAP && forall id <- byId :: id <= counter
    }
  }

  const EMPTY := Table(0, map[], map[])

  // ---------- what the operations do to a table ----------

  function Assigned(t: Table, client: nat, proxy: string, stream: string): (Table, Option<nat>) {
    if Key(proxy, stream) in t.byName then (t, None)
    else
      var id := (t.counter + 1) % WRAP;
      var e := Entry(id, proxy, stream, client);
      (Table(id, t.byId[id := e], t.byName[Key(proxy, stream) := e]), Some(id))
  }

  function Removed(t: Table, id: nat): Table {
    if id !in t.byId then t
    else t.(byId := t.byId - {id}, byName := t.byName - {KeyOf(t.byId[id])})
  }

  /** Exactly the entries of one session gone, from both indexes. */
  function RemovedByClient(t: Table, client: nat): Table {
    Table(t.counter,
          map id | id in t.byId && t.byId[id].client != client :: t.byId[id],
          map name | name in t.byName && t.byName[name].client != client :: t.byName[name])
  }

  // ---------- runs ----------

  datatype Op =
    | Assign(client: nat, proxy: string, stream: string)
    | Remove(id: nat)
    | RemoveByClient(client: nat)

  function Step(t: Table, op: Op): Table {
    match op
    case Assign(client, proxy, stream) => Assigned(t, client, proxy, stream).0
    case Remove(id) => Removed(t, id)
    case RemoveByClient(client) => RemovedByClient(t, client)
  }

  function Run(ops: seq<Op>): Table {
    if ops == [] then EMPTY else Step(Run(ops[..|ops| - 1]), ops[|ops| - 1])
  }

  /** The numbers handed out, in order. */
  function Issued(ops: seq<Op>): seq<nat> {
    if ops == [] then []
    else
      var before, op := Issued(ops[..|ops| - 1]), ops[|ops| - 1];
      if !op.Assign? then before
      else
        match Assigned(Run(ops[..|ops| - 1]), op.client, op.proxy, op.stream).1
        case None => before
        case Some(id) => before + [id]
  }

  lemma StepKeepsValid(t: Table, op: Op)
    requires t.Valid()
    requires op.Assign? && Key(op.proxy, op.stream) !in t.byName ==> t.counter < WRAP - 1
    ensures Step(t, op).Valid()
  {
  }

  /** Below 2^32 registrations the two indexes agree after any operations, and the numbers handed
      out are 1, 2, 3 and so on: never one twice, whatever was removed meanwhile. */
  lemma {:induction false} IndexesAgree(ops: seq<Op>)
    requires |Issued(ops)| < 0x1_0000_0000
    ensures Run(ops).Valid() && Run(ops).counter == |Issued(ops)|
    ensures forall k :: 0 <= k < |Issued(ops)| ==> Issued(ops)[k] == k + 1
  {
    if ops != [] {
      IndexesAgree(ops[..|ops| - 1]);
      StepKeepsValid(Run(ops[..|ops| - 1]), ops[|ops| - 1]);
    }
  }

  /** What is registered, as one set: the reference for the two indexes. */
  ghost function Live(ops: seq<Op>): set<Entry> {
    if ops == [] then {}
    else
      var init, op := ops[..|ops| - 1], ops[|ops| - 1];
      var live := Live(init);
      match op
      case Assign(client, proxy, stream) =>
        if exists e <- live :: KeyOf(e) == Key(proxy, stream) then live
        else live + {Entry(|Issued(init)| + 1, proxy, stream, client)}
      case Remove(id) => set e | e in live && e.id != id
      case RemoveByClient(client) => set e | e in live && e.client != client
  }

  lemma StepOnEntries(t: Table, op: Op, e: Entry)
    requires t.Valid()
    requires op.Assign? && Key(op.proxy, op.stream) !in t.byName ==> t.counter < WRAP - 1
    ensures e in Step(t, op).byId.Values
            <==> match op
                 case Assign(client, proxy, stream) =>
                   e in t.byId.Values || (Key(proxy, stream) !in t.byName && e == Entry(t.counter + 1, proxy, stream, client))
                 case Remove(id) => e in t.byId.Values && e.id != id
                 case RemoveByClient(client) => e in t.byId.Values && e.client != client
  {
    var t' := Step(t, op);
    assert e in t.byId.Values <==> e.id in t.byId && t.byId[e.id] == e;
    StepKeepsValid(t, op);
    assert e in t'.byId.Values <==> e.id in t'.byId && t'.byId[e.id] == e;
  }

  /** After any operations each index holds exactly the streams registered and not yet removed. */
  lemma {:induction false} TableIsLive(ops: seq<Op>)
    requires |Issued(ops)| < 0x1_0000_0000
    ensures Run(ops).byId.Values == Run(ops).byName.Values == Live(ops)
  {
    hide Assigned, Removed, RemovedByClient, Step, Issued, KeyOf;
    IndexesAgree(ops);
    var t' := Run(ops);
    forall e ensures e in t'.byId.Values <==> e in t'.byName.Values { SameEntries(t', e); }
    if ops != [] {
      var init, op := ops[..|ops| - 1], ops[|ops| - 1];
      assert |Issued(init)| <= |Issued(ops)| by { IssuesOne(ops); }
      TableIsLive(init);
      IndexesAgree(init);
      var t := Run(init);
      assert op.Assign? && Key(op.proxy, op.stream) !in t.byName ==> t.counter < WRAP - 1 by { IssuesOne(ops); }
      if op.Assign? { NameInUse(t, Key(op.proxy, op.stream)); }
      forall e ensures e in t'.byId.Values <==> e in Live(ops) {
        StepOnEntries(t, op, e);
      }
    }
  }

  lemma NameInUse(t: Table, name: string)
    requires t.Agree()
    ensures name in t.byName <==> exists e <- t.byName.Values :: KeyOf(e) == name
  {
  }

  lemma IssuesOne(ops: seq<Op>)
    requires ops != []
    ensures |Issued(ops[..|ops| - 1])| <= |Issued(ops)|
    ensures var t, op := Run(ops[..|ops| - 1]), ops[|ops| - 1];
            op.Assign? && Key(op.proxy, op.stream) !in t.byName ==> |Issued(ops)| == |Issued(ops[..|ops| - 1])| + 1
  {
  }

  lemma SameEntries(t: Table, e: Entry)
    requires t.Agree()
    ensures e in t.byId.Values <==> e in t.byName.Values
  {
    assert e in t.byId.Values <==> e.id in t.byId && t.byId[e.id] == e;
    assert e in t.byName.Values <==> KeyOf(e) in t.byName && t.byName[KeyOf(e)] == e;
  }

  /** Beyond that the indexes go on agreeing exactly as long as the next number is free. */
  lemma AgreementExact(t: Table, client: nat, proxy: string, stream: string)
    requires t.Agree()
    ensures Assigned(t, client, proxy, stream).0.Agree()
            <==> Key(proxy, stream) in t.byName || (t.counter + 1) % WRAP !in t.byId
  {
    var id, t' := (t.counter + 1) % WRAP, Assigned(t, client, proxy, stream).0;
    if Key(proxy, stream) !in t.byName && id in t.byId {
      var held := t.byId[id];
      assert t'.byName[KeyOf(held)] == held && t'.byId[id] != held;
    }
  }

  /** One stream registered for good, then n more registered and removed one after the other. */
  function Churn(client: nat, kept: string, other: string, n: nat): seq<Op> {
    if n == 0 then [Assign(client, "", kept)]
    else Churn(client, kept, other, n - 1) + [Assign(client, "", other)] + [Remove((1 + n) % WRAP)]
  }

  lemma RunOne(ops: seq<Op>, op: Op)
    ensures Run(ops + [op]) == Step(Run(ops), op)
  {
    assert (ops + [op])[..|ops|] == ops;
  }

  lemma {:induction false} ChurnKeepsOne(client: nat, kept: string, other: string, n: nat)
    requires kept != other && n < WRAP
    ensures var e := Entry(1, "", kept, client);
            Run(Churn(client, kept, other, n)) == Table((1 + n) % WRAP, map[1 := e], map[KeyOf(e) := e])
  {
    var e := Entry(1, "", kept, client);
    if n == 0 {
      RunOne([], Assign(client, "", kept));
      assert [] + [Assign(client, "", kept)] == [Assign(client, "", kept)];
    } else {
      var before := Churn(client, kept, other, n - 1);
      ChurnKeepsOne(client, kept, other, n - 1);
      RunOne(before, Assign(client, "", other));
      RunOne(before + [Assign(client, "", other)], Remove((1 + n) % WRAP));
      ChurnStep(client, kept, other, n);
    }
  }

  lemma ChurnStep(client: nat, kept: string, other: string, n: nat)
    requires kept != other && 0 < n < WRAP
    ensures var e := Entry(1, "", kept, client);
            var t := Table(n % WRAP, map[1 := e], map[KeyOf(e) := e]);
            Step(Step(t, Assign(client, "", other)), Remove((1 + n) % WRAP)) == t.(counter := (1 + n) % WRAP)
  {
    var e, id := Entry(1, "", kept, client), (1 + n) % WRAP;
    var t := Table(n % WRAP, map[1 := e], map[KeyOf(e) := e]);
    assert KeyOf(e)[1..] == kept && Key("", other)[1..] == other;
    var t' := Step(t, Assign(client, "", other));
    assert t'.byId == map[1 := e, id := Entry(id, "", other, client)];
    assert Step(t', Remove(id)).byId == t.byId && Step(t', Remove(id)).byName == t.byName;
  }

  /** Such a table is reached: with one stream kept while the numbers go round, the first number
      after the wrap is the one still in use. */
  lemma WrapBreaksAgreement(client: nat, kept: string, other: string)
    requires kept != other
    ensures var t := Run(Churn(client, kept, other, WRAP - 1));
            t.Agree() && !Assigned(t, client, "", other).0.Agree()
  {
    hide Run, Churn, Assigned;
    ChurnKeepsOne(client, kept, other, WRAP - 1);
    var e := Entry(1, "", kept, client);
    var t := Table(0, map[1 := e], map[KeyOf(e) := e]);
    assert KeyOf(e)[1..] == kept && Key("", other)[1..] == other;
    AgreementExact(t, client, "", other);
  }

  // ---------- names ----------

  predicate NoSlash(s: string) {
    '/' !in s
  }

  /** p2 goes on from p1 with a slash and something that the stream name s1 begins with. */
  ghost predicate Shifted(p1: string, s1: string, p2: string, s2: string) {
    exists x :: p2 == p1 + "/" + x && s1 == x + "/" + s2
  }

  lemma LongerProxy(p1: string, s1: string, p2: string, s2: string)
    requires Key(p1, s1) == Key(p2, s2) && |p1| < |p2|
    ensures Shifted(p1, s1, p2, s2)
  {
    var k, n, m := Key(p1, s1), |p1|, |p2|;
    var x := p2[n + 1..];
    assert p1 == k[..n] && s1 == k[n + 1..] && p2 == Key(p2, s2)[..m] && s2 == Key(p2, s2)[m + 1..];
    assert k[n] == '/' && Key(p2, s2)[m] == '/' && p2[n] == k[n];
    assert p2 == p2[..n] + [p2[n]] + x && p2[..n] == k[..n];
    assert s1 == k[n + 1..m] + [k[m]] + k[m + 1..] && k[n + 1..m] == x;
  }

  /** Two names share a key exactly when they are the same or a slash inside the one's proxy name
      could as well be the one between proxy and stream. */
  lemma KeysCollide(p1: string, s1: string, p2: string, s2: string)
    ensures Key(p1, s1) == Key(p2, s2)
            <==> (p1 == p2 && s1 == s2) || Shifted(p1, s1, p2, s2) || Shifted(p2, s2, p1, s1)
  {
    if Key(p1, s1) == Key(p2, s2) {
      if |p1| < |p2| {
        LongerProxy(p1, s1, p2, s2);
      } else if |p2| < |p1| {
        LongerProxy(p2, s2, p1, s1);
      } else {
        assert p1 == Key(p1, s1)[..|p1|] == p2 && s1 == Key(p1, s1)[|p1| + 1..] == s2;
      }
    } else {
      assert !Shifted(p1, s1, p2, s2) by { ShiftedSameKey(p1, s1, p2, s2); }
      assert !Shifted(p2, s2, p1, s1) by { ShiftedSameKey(p2, s2, p1, s1); }
    }
  }

  lemma ShiftedSameKey(p1: string, s1: string, p2: string, s2: string)
    ensures Shifted(p1, s1, p2, s2) ==> Key(p1, s1) == Key(p2, s2)
  {
    if Shifted(p1, s1, p2, s2) {
      var x :| p2 == p1 + "/" + x && s1 == x + "/" + s2;
      assert p1 + "/" + (x + "/" + s2) == p1 + "/" + x + "/" + s2;
    }
  }

  /** So the key keeps two names apart when the proxy names hold no slash. */
  lemma KeyInjective(p: string, s: string, p': string, s': string)
    requires NoSlash(p) && NoSlash(p') && Key(p, s) == Key(p', s')
    ensures p == p' && s == s'
  {
    KeysCollide(p, s, p', s');
    NoShift(p, s, p', s');
    NoShift(p', s', p, s);
  }

  lemma NoShift(p1: string, s1: string, p2: string, s2: string)
    requires NoSlash(p2)
    ensures !Shifted(p1, s1, p2, s2)
  {
    forall x ensures p2 != p1 + "/" + x {
      assert (p1 + "/" + x)[|p1|] == '/';
      assert |p1| < |p2| ==> p2[|p1|] in p2;
    }
  }

  function ByName(t: Table, proxy: string, stream: string): Option<Entry> {
    if Key(proxy, stream) in t.byName then Some(t.byName[Key(proxy, stream)]) else None
  }

  /** With proxy names free of slashes a lookup by name finds exactly the entry with those names. */
  lemma ByNameExact(t: Table, proxy: string, stream: string, e: Entry)
    requires t.Agree() && NoSlash(proxy) && forall id <- t.byId :: NoSlash(t.byId[id].proxy)
    ensures ByName(t, proxy, stream) == Some(e)
            <==> e.id in t.byId && t.byId[e.id] == e && e.proxy == proxy && e.stream == stream
  {
    var r := ByName(t, proxy, stream);
    if r.Some? {
      KeyInjective(proxy, stream, r.value.proxy, r.value.stream);
    }
  }

  /** Otherwise not: proxy "a" with stream "b/c" is found under proxy "a/b" and stream "c", and the
      second of the two cannot be registered beside the first. */
  lemma SlashConfuses(client: nat)
    ensures var t := Assigned(EMPTY, client, "a", "b/c").0;
            && ByName(t, "a/b", "c") == Some(Entry(1, "a", "b/c", client))
            && Assigned(t, client, "a/b", "c").1.None?
  {
    assert Key("a", "b/c") == "a/b/c" == Key("a/b", "c");
  }

  // ---------- the table ----------

  ghost predicate Ascending(es: seq<Entry>) {
    forall i, j :: 0 <= i < j < |es| ==> es[i].id < es[j].id
  }

  function Insert(es: seq<Entry>, e: Entry): (r: seq<Entry>)
    requires Ascending(es) && forall x <- es :: x.id != e.id
    ensures Ascending(r) && forall x :: x in r <==> x in es || x == e
  {
    if es == [] || e.id < es[0].id then [e] + es
    else
      var rest := Insert(es[1..], e);
      assert forall x <- rest :: es[0].id < x.id;
      [es[0]] + rest
  }

  function Carried(t: Table, client: nat): set<nat> {
    set id | id in t.byId && t.byId[id].client == client
  }

  /** t with the numbers gone taken out of both indexes. */
  function Minus(t: Table, gone: set<nat>): Table {
    Table(t.counter, t.byId - gone, map name | name in t.byName && t.byName[name].id !in gone :: t.byName[name])
  }

  lemma MinusOne(t: Table, gone: set<nat>, id: nat)
    requires t.Agree() && id in t.byId && id !in gone
    ensures Removed(Minus(t, gone), id) == Minus(t, gone + {id})
  {
    var a, b := Removed(Minus(t, gone), id), Minus(t, gone + {id});
    assert a.byId == b.byId;
    assert forall name <- t.byName :: t.byName[name].id == id <==> name == KeyOf(t.byId[id]);
    assert a.byName == b.byName;
  }

  lemma MinusNothing(t: Table)
    ensures Minus(t, {}) == t
  {
    assert Minus(t, {}).byName == t.byName;
  }

  lemma MinusCarried(t: Table, client: nat)
    requires t.Agree()
    ensures Minus(t, Carried(t, client)) == RemovedByClient(t, client)
  {
    assert Minus(t, Carried(t, client)).byName == RemovedByClient(t, client).byName;
  }

  class StreamTable {
    var counter: nat
    var byId: map<nat, Entry>
    var byName: map<string, Entry>

    function View(): Table
      reads this
    {
      Table(counter, byId, byName)
    }

    constructor ()
      ensures View() == EMPTY
    {
      counter, byId, byName := 0, map[], map[];
    }

    method Assign(client: nat, proxy: string, stream: string) returns (r: Option<nat>)
      modifies this
      ensures (View(), r) == Assigned(old(View()), client, proxy, stream)
      ensures r.None? <==> Key(proxy, stream) in old(byName)
    {
      var key := Key(proxy, stream);
      if key in byName {
        return None;
      }
      counter := (counter + 1) % WRAP;
      var e := Entry(counter, proxy, stream, client);
      byId := byId[e.id := e];
      byName := byName[key := e];
      return Some(e.id);
    }

    method Get(id: nat) returns (r: Option<Entry>)
      ensures r.None? <==> id !in byId
      ensures r.Some? ==> byId[id] == r.value
    {
      return if id in byId then Some(byId[id]) else None;
    }

    method GetByName(proxy: string, stream: string) returns (r: Option<Entry>)
      ensures r == ByName(View(), proxy, stream)
    {
      var key := Key(proxy, stream);
      return if key in byName then Some(byName[key]) else None;
    }

    /** The streams of one proxy name, in the order they were assigned. */
    method FindByClientProxy(proxy: string) returns (entries: seq<Entry>)
      requires View().Agree()
      ensures Ascending(entries)
      ensures forall e :: e in entries <==> e.id in byId && byId[e.id] == e && e.proxy == proxy
    {
      entries := [];
      var todo := byId.Keys;
      while todo != {}
        invariant todo <= byId.Keys && Ascending(entries)
        invariant forall e :: e in entries <==> e.id in byId && e.id !in todo && byId[e.id] == e && e.proxy == proxy
        decreases |todo|
      {
        var id :| id in todo;
        todo := todo - {id};
        if byId[id].proxy == proxy {
          entries := Insert(entries, byId[id]);
        }
      }
    }

    method Remove(id: nat)
      modifies this
      ensures View() == Removed(old(View()), id)
    {
      if id in byId {
        var e := byId[id];
        byId := byId - {id};
        byName := byName - {KeyOf(e)};
      }
    }

    /** Removes exactly that session's streams, in whatever order the map is walked. */
    method RemoveByClient(client: nat) returns (removed: nat)
      requires View().Agree()
      modifies this
      ensures View() == RemovedByClient(old(View()), client)
      ensures removed == |Carried(old(View()), client)|
    {
      hide Minus, RemovedByClient;
      removed := 0;
      ghost var was := View();
      ghost var gone: set<nat> := {};
      MinusNothing(was);
      var todo := byId.Keys;
      while todo != {}
        invariant todo <= was.byId.Keys && gone !! todo
        invariant forall id <- todo :: id in byId && byId[id] == was.byId[id]
        invariant gone == set id | id in was.byId && id !in todo && was.byId[id].client == client
        invariant View() == Minus(was, gone) && removed == |gone|
        decreases |todo|
      {
        var id :| id in todo;
        var e := byId[id];
        todo := todo - {id};
        if e.client == client {
          MinusOne(was, gone, id);
          byId := byId - {id};
          byName := byName - {KeyOf(e)};
          removed := removed + 1;
          gone := gone + {id};
        }
      }
      assert gone == Carried(was, client);
      MinusCarried(was, client);
    }
  }
}
