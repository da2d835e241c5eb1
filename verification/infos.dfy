/**
 * The info dictionaries the environments return, flattened by
 * `unroll_nested_dict` into slash-joined names, and the consumer in
 * `evaluate` that files every flattened entry under `infos` and every entry
 * that converts to a float under `stats`.
 */
module Infos {
  import opened Wrappers

  /** A leaf value of an info dictionary, as far as `float()` and truthiness see it. */
  datatype Value =
    | Number(x: real)
    | Integer(n: int)
    | Flag(b: bool)
    | Text(t: string)
    | Nothing
    | Opaque(truthy: bool)   // lists, arrays and other objects `float()` rejects

  /** An info: a leaf value or a dictionary with its entries in insertion order. */
  datatype Info = Leaf(value: Value) | Dict(entries: seq<(string, Info)>)

  /** A Python dictionary never repeats a key, at any depth. */
  predicate WellFormed(d: Info) {
    match d
    case Leaf(_) => true
    case Dict(entries) =>
      && (forall a, b :: 0 <= a < b < |entries| ==> entries[a].0 != entries[b].0)
      && (forall j :: 0 <= j < |entries| ==> WellFormed(entries[j].1))
  }

  /**
   * `unroll_nested_dict(d)`: a non-dictionary yields nothing (the generator
   * returns at once), and neither does an empty dictionary; a dictionary
   * yields the pairs of its entries, one entry after the other.
   */
  function Unroll(d: Info): (r: seq<(string, Value)>)
    ensures d.Leaf? ==> r == []
    ensures d.Dict? && |d.entries| == 0 ==> r == []
    decreases d, 1
  {
    match d
    case Leaf(_) => []
    case Dict(entries) => UnrollFrom(d, 0)
  }

  /** The pairs yielded by the entries of `d` from the `i`-th on. */
  function UnrollFrom(d: Info, i: nat): seq<(string, Value)>
    requires d.Dict? && i <= |d.entries|
    decreases d, 0, |d.entries| - i + 1
  {
    if i == |d.entries| then [] else Item(d, i) + UnrollFrom(d, i + 1)
  }

  /** The pairs the `j`-th entry yields: its own pair, or its child's pairs under `key/`. */
  function Item(d: Info, j: nat): seq<(string, Value)>
    requires d.Dict? && j < |d.entries|
    decreases d, 0, |d.entries| - j
  {
    var (key, child) := d.entries[j];
    if child.Dict? then Prefix(key, Unroll(child)) else [(key, child.value)]
  }

  function Prefix(key: string, pairs: seq<(string, Value)>): (r: seq<(string, Value)>)
    ensures |r| == |pairs|
    ensures forall j :: 0 <= j < |r| ==> r[j] == (key + "/" + pairs[j].0, pairs[j].1)
  {
    seq(|pairs|, j requires 0 <= j < |pairs| => (key + "/" + pairs[j].0, pairs[j].1))
  }

  /** A key path written as one name, `a/b/c`. */
  function Join(path: seq<string>): string
    requires |path| > 0
  {
    if |path| == 1 then path[0] else path[0] + "/" + Join(path[1..])
  }

  /** The child stored under `key`, if any. */
  function Find(entries: seq<(string, Info)>, key: string): (r: Option<Info>)
    ensures r.None? <==> forall j :: 0 <= j < |entries| ==> entries[j].0 != key
  {
    if |entries| == 0 then None
    else if entries[0].0 == key then Some(entries[0].1)
    else Find(entries[1..], key)
  }

  /** `d[path[0]][path[1]]...`, or `None` where a key is missing or a leaf is indexed. */
  function Lookup(d: Info, path: seq<string>): Option<Info>
    decreases |path|
  {
    if |path| == 0 then Some(d)
    else if d.Leaf? then None
    else match Find(d.entries, path[0])
      case None => None
      case Some(child) => Lookup(child, path[1..])
  }

  /** Some key path of `d` ends in the leaf `v` and joins to `name`. */
  ghost predicate Reaches(d: Info, name: string, v: Value) {
    exists path :: |path| > 0 && Join(path) == name && Lookup(d, path) == Some(Leaf(v))
  }

  lemma FindEntry(entries: seq<(string, Info)>, j: nat)
    requires j < |entries|
    requires forall a, b :: 0 <= a < b < |entries| ==> entries[a].0 != entries[b].0
    ensures Find(entries, entries[j].0) == Some(entries[j].1)
  {
    if j > 0 {
      FindEntry(entries[1..], j - 1);
    }
  }

  lemma FindSome(entries: seq<(string, Info)>, key: string)
    requires Find(entries, key).Some?
    ensures exists j :: 0 <= j < |entries| && entries[j].0 == key && entries[j].1 == Find(entries, key).value
  {
    if entries[0].0 != key {
      FindSome(entries[1..], key);
      var j :| 0 <= j < |entries| - 1 && entries[1..][j].0 == key && entries[1..][j].1 == Find(entries, key).value;
      assert entries[j + 1] == entries[1..][j];
    }
  }

  /** Every pair of the `j`-th entry appears among the pairs from entry `i` on. */
  lemma {:induction false} ItemIncluded(d: Info, i: nat, j: nat, x: (string, Value))
    requires d.Dict? && i <= j < |d.entries| && x in Item(d, j)
    ensures x in UnrollFrom(d, i)
    decreases j - i
  {
    if i < j {
      ItemIncluded(d, i + 1, j, x);
    }
  }

  /** A pair from entry `i` on comes from some entry `j >= i`. */
  lemma {:induction false} ItemOf(d: Info, i: nat, x: (string, Value)) returns (j: nat)
    requires d.Dict? && i <= |d.entries| && x in UnrollFrom(d, i)
    ensures i <= j < |d.entries| && x in Item(d, j)
    decreases |d.entries| - i
  {
    if x in Item(d, i) {
      j := i;
    } else {
      j := ItemOf(d, i + 1, x);
    }
  }

  /**
   * Completeness: every key path that ends in a leaf shows up in the
   * flattening, under the slash-joined path.
   */
  lemma {:induction false} UnrollComplete(d: Info, path: seq<string>, v: Value)
    requires |path| > 0 && Lookup(d, path) == Some(Leaf(v))
    ensures (Join(path), v) in Unroll(d)
    decreases |path|
  {
    var child := Find(d.entries, path[0]).value;
    FindSome(d.entries, path[0]);
    var j :| 0 <= j < |d.entries| && d.entries[j].0 == path[0] && d.entries[j].1 == child;
    if |path| == 1 {
      assert child == Leaf(v);
      assert (path[0], v) in Item(d, j);
      ItemIncluded(d, 0, j, (path[0], v));
    } else {
      assert Lookup(child, path[1..]) == Some(Leaf(v));
      assert child.Dict?;
      UnrollComplete(child, path[1..], v);
      var k :| 0 <= k < |Unroll(child)| && Unroll(child)[k] == (Join(path[1..]), v);
      assert Item(d, j)[k] == (Join(path), v);
      ItemIncluded(d, 0, j, (Join(path), v));
    }
  }

  /**
   * The non-dictionary values of `d` below its top level: the values
   * `unroll_nested_dict` must yield, counted entry by entry from the back.
   */
  function LeafCount(d: Info): nat
    decreases d, 1
  {
    match d
    case Leaf(_) => 0
    case Dict(entries) => LeavesBelow(d, |entries|)
  }

  /** The leaves under the first `n` entries of `d`. */
  function LeavesBelow(d: Info, n: nat): nat
    requires d.Dict? && n <= |d.entries|
    decreases d, 0, n
  {
    if n == 0 then 0
    else
      var child := d.entries[n - 1].1;
      LeavesBelow(d, n - 1) + (if child.Dict? then LeafCount(child) else 1)
  }

  /** The flattening yields exactly one pair per leaf, at every depth. */
  lemma {:induction false} UnrollLength(d: Info)
    ensures |Unroll(d)| == LeafCount(d)
    decreases d, 1
  {
    if d.Dict? {
      UnrollFromLength(d, 0);
    }
  }

  /**
   * Names may collide after joining: `{"a/b": 1, "a": {"b": 2}}` yields
   * `a/b` twice, both pairs kept, in dictionary order.
   */
  lemma CollidingNamesKept()
    ensures Unroll(Dict([("a/b", Leaf(Integer(1))), ("a", Dict([("b", Leaf(Integer(2)))]))]))
      == [("a/b", Integer(1)), ("a/b", Integer(2))]
  {
    var d := Dict([("a/b", Leaf(Integer(1))), ("a", Dict([("b", Leaf(Integer(2)))]))]);
    var inner := Dict([("b", Leaf(Integer(2)))]);
    assert UnrollFrom(inner, 1) == [];
    assert Unroll(inner) == [("b", Integer(2))];
    assert "a" + "/" + "b" == "a/b";
    assert Item(d, 1) == [("a/b", Integer(2))];
    assert UnrollFrom(d, 2) == [];
    assert UnrollFrom(d, 1) == [("a/b", Integer(2))];
    assert Item(d, 0) == [("a/b", Integer(1))];
  }

  /** The entries from the `i`-th on yield one pair per leaf under them. */
  lemma {:induction false} UnrollFromLength(d: Info, i: nat)
    requires d.Dict? && i <= |d.entries|
    ensures |UnrollFrom(d, i)| + LeavesBelow(d, i) == LeafCount(d)
    decreases d, 0, |d.entries| - i
  {
    if i < |d.entries| {
      UnrollFromLength(d, i + 1);
      var child := d.entries[i].1;
      if child.Dict? {
        UnrollLength(child);
      }
      assert |Item(d, i)| == if child.Dict? then LeafCount(child) else 1;
    }
  }

  /**
   * Soundness: every flattened pair is a leaf of `d` reached by a key path
   * whose slash-joined form is the pair's name.
   */
  lemma {:induction false} UnrollSound(d: Info, x: (string, Value))
    requires WellFormed(d) && x in Unroll(d)
    ensures Reaches(d, x.0, x.1)
    decreases d, 1
  {
    var j := ItemOf(d, 0, x);
    if d.entries[j].1.Dict? {
      UnrollSoundNested(d, j, x);
    } else {
      LookupThrough(d, j, []);
      assert Join([d.entries[j].0]) == x.0;
    }
  }

  /** Soundness for a pair that entry `j`, a nested dictionary, yields. */
  lemma {:induction false} UnrollSoundNested(d: Info, j: nat, x: (string, Value))
    requires WellFormed(d) && d.Dict? && j < |d.entries| && d.entries[j].1.Dict? && x in Item(d, j)
    ensures Reaches(d, x.0, x.1)
    decreases d, 0
  {
    var (key, child) := d.entries[j];
    var pairs := Unroll(child);
    assert Item(d, j) == Prefix(key, pairs);
    var k :| 0 <= k < |pairs| && Prefix(key, pairs)[k] == x;
    UnrollSound(child, pairs[k]);
    var rest :| |rest| > 0 && Join(rest) == pairs[k].0 && Lookup(child, rest) == Some(Leaf(pairs[k].1));
    LookupThrough(d, j, rest);
  }

  /** In a well-formed dictionary, a path through entry `j` continues in that entry's child. */
  lemma LookupThrough(d: Info, j: nat, rest: seq<string>)
    requires WellFormed(d) && d.Dict? && j < |d.entries|
    ensures Lookup(d, [d.entries[j].0] + rest) == Lookup(d.entries[j].1, rest)
    ensures |rest| > 0 ==> Join([d.entries[j].0] + rest) == d.entries[j].0 + "/" + Join(rest)
  {
    FindEntry(d.entries, j);
    assert ([d.entries[j].0] + rest)[1..] == rest;
  }

  /** A dictionary without nested dictionaries yields exactly its items, in order. */
  lemma {:induction false} UnrollFlat(d: Info, i: nat)
    requires d.Dict? && i <= |d.entries|
    requires forall j :: 0 <= j < |d.entries| ==> d.entries[j].1.Leaf?
    ensures |UnrollFrom(d, i)| == |d.entries| - i
    ensures forall j :: i <= j < |d.entries| ==>
      UnrollFrom(d, i)[j - i] == (d.entries[j].0, d.entries[j].1.value)
    decreases |d.entries| - i
  {
    if i < |d.entries| {
      UnrollFlat(d, i + 1);
    }
  }

  /** Python truthiness, for the consumer's `if not agent_i` test. */
  predicate Falsy(v: Value) {
    match v
    case Number(x) => x == 0.0
    case Integer(n) => n == 0
    case Flag(b) => !b
    case Text(t) => |t| == 0
    case Nothing => true
    case Opaque(truthy) => !truthy
  }

  predicate Empty(agent: Info) {
    match agent
    case Leaf(v) => Falsy(v)
    case Dict(entries) => |entries| == 0
  }

  /** `float(v)`; `parseText` stands for Python's parsing of a string, `None` where it raises. */
  function ToFloat(v: Value, parseText: string -> Option<real>): Option<real> {
    match v
    case Number(x) => Some(x)
    case Integer(n) => Some(n as real)
    case Flag(b) => Some(if b then 1.0 else 0.0)
    case Text(t) => parseText(t)
    case Nothing => None
    case Opaque(_) => None
  }

  /** A boolean converts like the integer it equals (`bool` is a subclass of `int`). */
  lemma FlagConvertsAsInteger(b: bool, parseText: string -> Option<real>)
    ensures ToFloat(Flag(b), parseText) == ToFloat(Integer(if b then 1 else 0), parseText)
  {
  }

  /** Python's `pattern in s` on strings, searching from the front. */
  predicate HasSubstring(s: string, pattern: string)
    decreases |s|
  {
    |s| >= |pattern| && (s[..|pattern|] == pattern || (|s| > 0 && HasSubstring(s[1..], pattern)))
  }

  /** `pattern` occurs in `s` starting at position `i`. */
  predicate OccursAt(s: string, pattern: string, i: nat) {
    i + |pattern| <= |s| && s[i..i + |pattern|] == pattern
  }

  /** The front-to-back search finds `pattern` exactly when it occurs at some position. */
  lemma {:induction false} HasSubstringIff(s: string, pattern: string)
    ensures HasSubstring(s, pattern) <==> exists i: nat :: OccursAt(s, pattern, i)
    decreases |s|
  {
    if |s| < |pattern| {
    } else if s[..|pattern|] == pattern {
      assert OccursAt(s, pattern, 0);
    } else {
      assert |s| > 0;
      HasSubstringIff(s[1..], pattern);
      if HasSubstring(s, pattern) {
        var i: nat :| OccursAt(s[1..], pattern, i);
        assert s[1..][i..i + |pattern|] == s[i + 1..i + 1 + |pattern|];
        assert OccursAt(s, pattern, i + 1);
      }
      if exists i: nat :: OccursAt(s, pattern, i) {
        var i: nat :| OccursAt(s, pattern, i);
        assert i != 0;
        assert s[1..][i - 1..i - 1 + |pattern|] == s[i..i + |pattern|];
        assert OccursAt(s[1..], pattern, i - 1);
      }
    }
  }

  const SkippedName: string := "Task_eval_fn"

  /** One appended entry of `infos[policy][name]`. */
  datatype Record = Record(policy: string, name: string, value: Value)

  /** One appended entry of `stats[policy][name]`. */
  datatype Stat = Stat(policy: string, name: string, x: real)

  /** The `stats` entry a record contributes: none for a skipped name or a failed conversion. */
  function NumericOne(r: Record, parseText: string -> Option<real>): seq<Stat> {
    if HasSubstring(r.name, SkippedName) then []
    else match ToFloat(r.value, parseText)
      case None => []
      case Some(x) => [Stat(r.policy, r.name, x)]
  }

  /** The `stats` entries the first `n` records contribute, in order. */
  function NumericUpTo(rs: seq<Record>, n: nat, parseText: string -> Option<real>): seq<Stat>
    requires n <= |rs|
  {
    if n == 0 then [] else NumericUpTo(rs, n - 1, parseText) + NumericOne(rs[n - 1], parseText)
  }

  function Numeric(rs: seq<Record>, parseText: string -> Option<real>): seq<Stat> {
    NumericUpTo(rs, |rs|, parseText)
  }

  /** Only the first `n` records matter to `NumericUpTo(rs, n)`. */
  lemma {:induction false} NumericUpToPrefix(a: seq<Record>, b: seq<Record>, n: nat, parseText: string -> Option<real>)
    requires n <= |a| && n <= |b| && forall i :: 0 <= i < n ==> a[i] == b[i]
    ensures NumericUpTo(a, n, parseText) == NumericUpTo(b, n, parseText)
  {
    if n > 0 {
      NumericUpToPrefix(a, b, n - 1, parseText);
    }
  }

  /** The records one agent's info contributes. */
  function AgentRecords(policy: string, agent: Info): seq<Record> {
    var pairs := Unroll(agent);
    seq(|pairs|, k requires 0 <= k < |pairs| => Record(policy, pairs[k].0, pairs[k].1))
  }

  /** The records of the first `n` agent infos of one policy. */
  function AgentsRecords(policy: string, agents: seq<Info>, n: nat): seq<Record>
    requires n <= |agents|
  {
    if n == 0 then [] else AgentsRecords(policy, agents, n - 1) + AgentRecords(policy, agents[n - 1])
  }

  /** Every record of the first `n` policies of one `evaluate` iteration, policies and agents in order. */
  function AllRecords(policies: seq<(string, seq<Info>)>, n: nat): seq<Record>
    requires n <= |policies|
  {
    if n == 0 then []
    else AllRecords(policies, n - 1) + AgentsRecords(policies[n - 1].0, policies[n - 1].1, |policies[n - 1].1|)
  }

  /** The stats of two runs of records filed one after the other are each run's stats, concatenated. */
  lemma {:induction false} NumericAppend(a: seq<Record>, b: seq<Record>, parseText: string -> Option<real>)
    ensures Numeric(a + b, parseText) == Numeric(a, parseText) + Numeric(b, parseText)
  {
    NumericAppendUpTo(a, b, |b|, parseText);
    assert (a + b)[..|a| + |b|] == a + b;
  }

  lemma {:induction false} NumericAppendUpTo(a: seq<Record>, b: seq<Record>, n: nat, parseText: string -> Option<real>)
    requires n <= |b|
    ensures NumericUpTo(a + b, |a| + n, parseText) == Numeric(a, parseText) + NumericUpTo(b, n, parseText)
  {
    if n == 0 {
      NumericUpToPrefix(a + b, a, |a|, parseText);
    } else {
      NumericAppendUpTo(a, b, n - 1, parseText);
      assert (a + b)[|a| + n - 1] == b[n - 1];
    }
  }

  /**
   * A statistic is filed exactly for a record whose name does not mention
   * the skipped evaluation function and whose value converts to a float.
   */
  lemma NumericMembers(rs: seq<Record>, parseText: string -> Option<real>, st: Stat)
    ensures st in Numeric(rs, parseText) <==>
      exists k :: 0 <= k < |rs| && rs[k].policy == st.policy && rs[k].name == st.name
        && !HasSubstring(rs[k].name, SkippedName) && ToFloat(rs[k].value, parseText) == Some(st.x)
  {
    NumericUpToMembers(rs, |rs|, parseText, st);
  }

  lemma {:induction false} NumericUpToMembers(rs: seq<Record>, n: nat, parseText: string -> Option<real>, st: Stat)
    requires n <= |rs|
    ensures st in NumericUpTo(rs, n, parseText) <==>
      exists k :: 0 <= k < n && rs[k].policy == st.policy && rs[k].name == st.name
        && !HasSubstring(rs[k].name, SkippedName) && ToFloat(rs[k].value, parseText) == Some(st.x)
  {
    if n > 0 {
      NumericUpToMembers(rs, n - 1, parseText, st);
    }
  }

  /** Skipping an empty agent info is unobservable: it would have yielded nothing. */
  lemma EmptyAgentYieldsNothing(policy: string, agent: Info)
    requires Empty(agent)
    ensures AgentRecords(policy, agent) == []
  {
    if agent.Dict? {
      assert UnrollFrom(agent, 0) == [];
    }
  }

  /** Files one record: always under `infos`, under `stats` when it passes the skip test and converts. */
  method File(r: Record, parseText: string -> Option<real>, infos0: seq<Record>, stats0: seq<Stat>)
    returns (infos: seq<Record>, stats: seq<Stat>)
    requires stats0 == Numeric(infos0, parseText)
    ensures infos == infos0 + [r]
    ensures stats == Numeric(infos, parseText)
  {
    infos, stats := infos0 + [r], stats0;
    NumericUpToPrefix(infos0, infos, |infos0|, parseText);
    if HasSubstring(r.name, SkippedName) {
      return;
    }
    var x := ToFloat(r.value, parseText);
    if x.None? {
      return;
    }
    stats := stats + [Stat(r.policy, r.name, x.value)];
  }

  /** The loop over the pairs one non-empty agent info yields. */
  method CollectAgent(name: string, agent: Info, parseText: string -> Option<real>, infos0: seq<Record>, stats0: seq<Stat>)
    returns (infos: seq<Record>, stats: seq<Stat>)
    requires stats0 == Numeric(infos0, parseText)
    ensures infos == infos0 + AgentRecords(name, agent)
    ensures stats == Numeric(infos, parseText)
  {
    infos, stats := infos0, stats0;
    if Empty(agent) {
      EmptyAgentYieldsNothing(name, agent);
      return;
    }
    var pairs := Unroll(agent);
    var records := AgentRecords(name, agent);
    for k := 0 to |pairs|
      invariant infos == infos0 + records[..k]
      invariant stats == Numeric(infos, parseText)
    {
      assert records[..k + 1] == records[..k] + [records[k]];
      infos, stats := File(Record(name, pairs[k].0, pairs[k].1), parseText, infos, stats);
    }
    assert records[..|pairs|] == records;
  }

  /** The loop over one policy's agent infos. */
  method CollectPolicy(name: string, agents: seq<Info>, parseText: string -> Option<real>, infos0: seq<Record>, stats0: seq<Stat>)
    returns (infos: seq<Record>, stats: seq<Stat>)
    requires stats0 == Numeric(infos0, parseText)
    ensures infos == infos0 + AgentsRecords(name, agents, |agents|)
    ensures stats == Numeric(infos, parseText)
  {
    infos, stats := infos0, stats0;
    for a := 0 to |agents|
      invariant infos == infos0 + AgentsRecords(name, agents, a)
      invariant stats == Numeric(infos, parseText)
    {
      infos, stats := CollectAgent(name, agents[a], parseText, infos, stats);
      assert infos == infos0 + (AgentsRecords(name, agents, a) + AgentRecords(name, agents[a]));
    }
  }

  /**
   * The consumer loop of `evaluate`: for each policy and each non-empty
   * agent info, every flattened pair goes to `infos`, and to `stats` when
   * its name passes the skip test and its value converts.
   */
  method Collect(policies: seq<(string, seq<Info>)>, parseText: string -> Option<real>)
    returns (infos: seq<Record>, stats: seq<Stat>)
    ensures infos == AllRecords(policies, |policies|)
    ensures stats == Numeric(infos, parseText)
  {
    infos, stats := [], [];
    for p := 0 to |policies|
      invariant infos == AllRecords(policies, p)
      invariant stats == Numeric(infos, parseText)
    {
      infos, stats := CollectPolicy(policies[p].0, policies[p].1, parseText, infos, stats);
      assert infos == AllRecords(policies, p + 1);
    }
  }
}
