/** The configuration layer: the error messages of `ConfigError` and the
    symmetrisation of the Uniswap pairs table read from its YAML file. */
module Configs {
  import opened Common

  // ---------------------------------------------------------------------------
  // ConfigError and its messages
  // ---------------------------------------------------------------------------

  datatype ConfigError =
    | EnvVarMissing(name: string)
    | MiddlewareInitError(message: string)
    | TokensLoadError(message: string)
    | UniswapPairsLoadError(message: string)

  /** The fixed text that opens the message of each variant. */
  function Prefix(e: ConfigError): string
  {
    match e
    case EnvVarMissing(_) => "Missing env variable: "
    case MiddlewareInitError(_) => "Middleware initialization error: "
    case TokensLoadError(_) => "Tokens loading error: "
    case UniswapPairsLoadError(_) => "Uniswap pairs loading error: "
  }

  /** The text each variant carries. */
  function Payload(e: ConfigError): string
  {
    match e
    case EnvVarMissing(name) => name
    case MiddlewareInitError(message) => message
    case TokensLoadError(message) => message
    case UniswapPairsLoadError(message) => message
  }

  /** `Display for ConfigError`: the variant's prefix followed by its text. */
  function Display(e: ConfigError): (r: string)
    ensures |r| == |Prefix(e)| + |Payload(e)|
    ensures r[..|Prefix(e)|] == Prefix(e) && r[|Prefix(e)|..] == Payload(e)
  {
    match e
    case EnvVarMissing(name) => "Missing env variable: " + name
    case MiddlewareInitError(message) => "Middleware initialization error: " + message
    case TokensLoadError(message) => "Tokens loading error: " + message
    case UniswapPairsLoadError(message) => "Uniswap pairs loading error: " + message
  }

  /** Different errors never print the same message: the prefixes tell the
      variants apart and the rest of the message is the carried text. */
  lemma DisplayInjective(e1: ConfigError, e2: ConfigError)
    requires Display(e1) == Display(e2)
    ensures e1 == e2
  {
    var m := Display(e1);
    // The third character of the prefix already tells the variants apart.
    assert m[2] == Prefix(e1)[2] by {
      assert m[..|Prefix(e1)|] == Prefix(e1);
    }
    assert m[2] == Prefix(e2)[2] by {
      assert m[..|Prefix(e2)|] == Prefix(e2);
    }
    assert Prefix(e1) == Prefix(e2);
  }

  // ---------------------------------------------------------------------------
  // The pairs table
  // ---------------------------------------------------------------------------

  type PairTable = map<string, map<string, H160>>

  /** `table[a][b]`, when both keys are present. */
  function Get(table: PairTable, a: string, b: string): (r: Option<H160>)
    ensures r.Some? <==> a in table && b in table[a]
    ensures r.Some? ==> r.value == table[a][b]
  {
    if a in table && b in table[a] then Some(table[a][b]) else None
  }

  /** The outer keys after symmetrisation: the raw ones and every raw inner key. */
  function OuterKeys(raw: PairTable): set<string>
  {
    raw.Keys + set b, a | b in raw.Keys && a in raw[b].Keys :: a
  }

  /** The inner keys under `a`: the raw ones and every `b` whose raw row names `a`. */
  function InnerKeys(raw: PairTable, a: string): set<string>
  {
    (if a in raw then raw[a].Keys else {}) + set b | b in raw.Keys && a in raw[b].Keys
  }

  /** The table `load_uniswap_v2_pairs` returns: every entry `raw[t1][t2] = x`
      writes `x` at `[t2][t1]`, creating the row `t2` when it is missing;
      entries that no reverse entry overwrites keep their raw value. */
  function Symmetrised(raw: PairTable): PairTable
  {
    map a | a in OuterKeys(raw) ::
      map b | b in InnerKeys(raw, a) :: if Get(raw, b, a).Some? then raw[b][a] else raw[a][b]
  }

  /** The lookups of `Symmetrised`: the reverse raw entry when there is one, else the raw entry. */
  lemma SymmetrisedGet(raw: PairTable, a: string, b: string)
    ensures Get(Symmetrised(raw), a, b) == if Get(raw, b, a).Some? then Get(raw, b, a) else Get(raw, a, b)
  {
    if Get(raw, b, a).Some? {
      assert a in OuterKeys(raw);
      assert b in InnerKeys(raw, a);
    } else if Get(raw, a, b).Some? {
      assert b in InnerKeys(raw, a);
    }
  }

  /** The outer keys of `Symmetrised`: the raw keys and the inner keys of every raw row. */
  lemma SymmetrisedKeys(raw: PairTable, a: string)
    ensures a in Symmetrised(raw) <==> a in raw || exists b :: Get(raw, b, a).Some?
  {
    if exists b :: Get(raw, b, a).Some? {
      var b :| Get(raw, b, a).Some?;
      assert a in OuterKeys(raw);
    }
    if a in Symmetrised(raw) && a !in raw {
      var b :| b in raw.Keys && a in raw[b].Keys;
      assert Get(raw, b, a).Some?;
    }
  }

  /** Every raw entry `raw[t1][t2] = x` appears reversed as `[t2][t1] = x`. */
  lemma ReverseEntryPresent(raw: PairTable, t1: string, t2: string)
    requires t1 in raw && t2 in raw[t1]
    ensures t2 in Symmetrised(raw) && t1 in Symmetrised(raw)[t2] && Symmetrised(raw)[t2][t1] == raw[t1][t2]
  {
    SymmetrisedGet(raw, t2, t1);
  }

  /** No key is removed: every raw row survives with at least its raw inner keys. */
  lemma NoKeyRemoved(raw: PairTable, a: string)
    requires a in raw
    ensures a in Symmetrised(raw) && raw[a].Keys <= Symmetrised(raw)[a].Keys
  {
    forall b | b in raw[a]
      ensures b in Symmetrised(raw)[a]
    {
      SymmetrisedGet(raw, a, b);
    }
  }

  /** A raw entry without a reverse entry keeps its value. */
  lemma KeptWithoutReverse(raw: PairTable, t1: string, t2: string)
    requires t1 in raw && t2 in raw[t1]
    requires Get(raw, t2, t1).None?
    ensures Get(Symmetrised(raw), t1, t2) == Some(raw[t1][t2])
  {
    SymmetrisedGet(raw, t1, t2);
  }

  /** Whether no pair of tokens is listed in both orders with different addresses. */
  ghost predicate Consistent(raw: PairTable)
  {
    forall a, b :: Get(raw, a, b).Some? && Get(raw, b, a).Some? ==> Get(raw, a, b) == Get(raw, b, a)
  }

  /** On a consistent table the result is symmetric and keeps every raw value. */
  lemma SymmetricWhenConsistent(raw: PairTable, a: string, b: string)
    requires Consistent(raw)
    ensures Get(Symmetrised(raw), a, b) == Get(Symmetrised(raw), b, a)
    ensures Get(raw, a, b).Some? ==> Get(Symmetrised(raw), a, b) == Get(raw, a, b)
  {
    SymmetrisedGet(raw, a, b);
    SymmetrisedGet(raw, b, a);
  }

  /** Two conflicting entries `raw[a][b] = x` and `raw[b][a] = y` come out swapped. */
  lemma SwappedWhenConflicting(raw: PairTable, a: string, b: string, x: H160, y: H160)
    requires Get(raw, a, b) == Some(x) && Get(raw, b, a) == Some(y)
    ensures Get(Symmetrised(raw), a, b) == Some(y) && Get(Symmetrised(raw), b, a) == Some(x)
  {
    SymmetrisedGet(raw, a, b);
    SymmetrisedGet(raw, b, a);
  }

  /** An entry is present in one order exactly when it is present in the other. */
  lemma SymmetricKeys(raw: PairTable, a: string, b: string)
    ensures Get(Symmetrised(raw), a, b).Some? <==> Get(Symmetrised(raw), b, a).Some?
  {
    SymmetrisedGet(raw, a, b);
    SymmetrisedGet(raw, b, a);
  }

  // ---------------------------------------------------------------------------
  // The merge loops
  // ---------------------------------------------------------------------------

  /** The address the additions list holds for `(a, b)`: the last entry for that key. */
  ghost function AddedGet(additions: seq<(string, string, H160)>, a: string, b: string): Option<H160>
    decreases |additions|
  {
    if |additions| == 0 then None
    else
      var q := additions[|additions| - 1];
      if q.0 == a && q.1 == b then Some(q.2) else AddedGet(additions[..|additions| - 1], a, b)
  }

  lemma AddedGetAppend(additions: seq<(string, string, H160)>, q: (string, string, H160))
    ensures forall a, b :: AddedGet(additions + [q], a, b) == if q.0 == a && q.1 == b then Some(q.2) else AddedGet(additions, a, b)
  {
    assert (additions + [q])[..|additions|] == additions;
  }

  /** The raw table with the additions applied, as lookups and outer keys. */
  ghost predicate Applied(raw: PairTable, additions: seq<(string, string, H160)>, table: PairTable)
  {
    && (forall a, b :: Get(table, a, b) == if AddedGet(additions, a, b).Some? then AddedGet(additions, a, b) else Get(raw, a, b))
    && (forall a :: a in table <==> a in raw || AddsRow(additions, a))
  }

  /** Whether some addition writes into row `a`. */
  ghost predicate AddsRow(additions: seq<(string, string, H160)>, a: string)
  {
    exists b :: AddedGet(additions, a, b).Some?
  }

  lemma AddsRowAppend(additions: seq<(string, string, H160)>, q: (string, string, H160), a: string)
    ensures AddsRow(additions + [q], a) <==> a == q.0 || AddsRow(additions, a)
  {
    AddedGetAppend(additions, q);
    if a == q.0 {
      assert AddedGet(additions + [q], a, q.1).Some?;
    } else {
      if AddsRow(additions, a) {
        var b :| AddedGet(additions, a, b).Some?;
        assert AddedGet(additions + [q], a, b).Some?;
      }
      if AddsRow(additions + [q], a) {
        var b :| AddedGet(additions + [q], a, b).Some?;
        assert AddedGet(additions, a, b).Some?;
      }
    }
  }

  /** The first pair of loops: one addition `(t2, t1, x)` per raw entry `raw[t1][t2] = x`. */
  method CollectAdditions(raw: PairTable) returns (additions: seq<(string, string, H160)>)
    ensures forall a, b :: AddedGet(additions, a, b) == Get(raw, b, a)
  {
    additions := [];
    var outer := raw.Keys;
    ghost var doneOuter: set<string> := {};
    while outer != {}
      invariant outer + doneOuter == raw.Keys && outer !! doneOuter
      invariant forall a, b :: AddedGet(additions, a, b) == if b in doneOuter then Get(raw, b, a) else None
      decreases outer
    {
      var t1 :| t1 in outer;
      var inner := raw[t1];
      var todo := inner.Keys;
      ghost var doneInner: set<string> := {};
      while todo != {}
        invariant todo + doneInner == inner.Keys && todo !! doneInner
        invariant forall a, b ::
          AddedGet(additions, a, b) == if b in doneOuter || (b == t1 && a in doneInner) then Get(raw, b, a) else None
        decreases todo
      {
        var t2 :| t2 in todo;
        AddedGetAppend(additions, (t2, t1, inner[t2]));
        additions := additions + [(t2, t1, inner[t2])];
        todo := todo - {t2};
        doneInner := doneInner + {t2};
      }
      outer := outer - {t1};
      doneOuter := doneOuter + {t1};
    }
  }

  /** The second loop: `raw_map.entry(t2).or_default().insert(t1, x)` per addition. */
  method ApplyAdditions(raw: PairTable, additions: seq<(string, string, H160)>) returns (table: PairTable)
    ensures Applied(raw, additions, table)
  {
    table := raw;
    var j: nat := 0;
    while j < |additions|
      invariant j <= |additions|
      invariant Applied(raw, additions[..j], table)
    {
      var q := additions[j];
      var row := if q.0 in table then table[q.0] else map[];
      ghost var before := table;
      table := table[q.0 := row[q.1 := q.2]];
      assert additions[..j + 1] == additions[..j] + [q];
      AddedGetAppend(additions[..j], q);
      ApplyStep(raw, additions[..j], q, before, table);
      j := j + 1;
    }
    assert additions[..j] == additions;
  }

  lemma ApplyStep(raw: PairTable, done: seq<(string, string, H160)>, q: (string, string, H160), before: PairTable, after: PairTable)
    requires Applied(raw, done, before)
    requires after == before[q.0 := (if q.0 in before then before[q.0] else map[])[q.1 := q.2]]
    requires forall a, b :: AddedGet(done + [q], a, b) == if q.0 == a && q.1 == b then Some(q.2) else AddedGet(done, a, b)
    ensures Applied(raw, done + [q], after)
  {
    forall a
      ensures a in after <==> a in raw || AddsRow(done + [q], a)
    {
      AddsRowAppend(done, q, a);
    }
  }

  /** The applied table is the symmetrised one. */
  lemma AppliedIsSymmetrised(raw: PairTable, additions: seq<(string, string, H160)>, table: PairTable)
    requires forall a, b :: AddedGet(additions, a, b) == Get(raw, b, a)
    requires Applied(raw, additions, table)
    ensures table == Symmetrised(raw)
  {
    forall a
      ensures a in table <==> a in Symmetrised(raw)
    {
      AppliedRowPresent(raw, additions, table, a);
    }
    forall a | a in table
      ensures table[a] == Symmetrised(raw)[a]
    {
      AppliedRow(raw, additions, table, a);
    }
  }

  lemma AppliedRowPresent(raw: PairTable, additions: seq<(string, string, H160)>, table: PairTable, a: string)
    requires forall a, b :: AddedGet(additions, a, b) == Get(raw, b, a)
    requires Applied(raw, additions, table)
    ensures a in table <==> a in Symmetrised(raw)
  {
    SymmetrisedKeys(raw, a);
    if exists b :: Get(raw, b, a).Some? {
      var b :| Get(raw, b, a).Some?;
      assert AddedGet(additions, a, b).Some?;
    }
    if AddsRow(additions, a) {
      var b :| AddedGet(additions, a, b).Some?;
      assert Get(raw, b, a).Some?;
    }
  }

  lemma AppliedRow(raw: PairTable, additions: seq<(string, string, H160)>, table: PairTable, a: string)
    requires forall a, b :: AddedGet(additions, a, b) == Get(raw, b, a)
    requires Applied(raw, additions, table)
    requires a in table && a in Symmetrised(raw)
    ensures table[a] == Symmetrised(raw)[a]
  {
    var s := Symmetrised(raw);
    forall b
      ensures Get(table, a, b) == Get(s, a, b)
    {
      SymmetrisedGet(raw, a, b);
    }
    assert table[a].Keys == s[a].Keys by {
      forall b
        ensures b in table[a] <==> b in s[a]
      {
        assert Get(table, a, b) == Get(s, a, b);
      }
    }
    forall b | b in table[a]
      ensures table[a][b] == s[a][b]
    {
      assert Get(table, a, b) == Get(s, a, b);
    }
  }

  /** `load_uniswap_v2_pairs` after parsing: the additions are collected from
      the raw table, then written into it. */
  method LoadUniswapV2Pairs(raw: PairTable) returns (table: PairTable)
    ensures table == Symmetrised(raw)
  {
    var additions := CollectAdditions(raw);
    table := ApplyAdditions(raw, additions);
    AppliedIsSymmetrised(raw, additions, table);
  }
}
