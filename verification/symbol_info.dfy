/** The symbol information table of the market-data handler
    (`SymbolInfoConfig` in bins/ctl-md-handler/src/config.rs): every symbol
    has a name and a numeric id, and the table indexes the same entries both
    ways. Building it rejects a repeated id or a repeated name, the id being
    checked first for each entry. */
module SymbolTable {
  import opened Wrappers
  import opened Ints
  import opened Seqs

  /** One symbol: its name and its unique numeric id. */
  datatype SymbolInfo = SymbolInfo(name: string, id: u32)

  /** The table, indexed by name and by id. */
  datatype SymbolInfoConfig = SymbolInfoConfig(byName: map<string, SymbolInfo>, byId: map<u32, SymbolInfo>)

  datatype SymbolInfoError = DuplicateId(id: u32) | DuplicateName(name: string)

  /** The entries' names, in file order. */
  function Names(entries: seq<SymbolInfo>): (names: seq<string>)
    ensures |names| == |entries|
    ensures forall i :: 0 <= i < |entries| ==> names[i] == entries[i].name
  {
    if |entries| == 0 then [] else Names(entries[..|entries| - 1]) + [entries[|entries| - 1].name]
  }

  /** The entries' ids, in file order. */
  function Ids(entries: seq<SymbolInfo>): (ids: seq<u32>)
    ensures |ids| == |entries|
    ensures forall i :: 0 <= i < |entries| ==> ids[i] == entries[i].id
  {
    if |entries| == 0 then [] else Ids(entries[..|entries| - 1]) + [entries[|entries| - 1].id]
  }

  /** The two indexes describe the same entries: each entry is filed under its
      own name and its own id, and each index leads back to the other. */
  predicate Consistent(c: SymbolInfoConfig)
  {
    (forall n :: n in c.byName ==> c.byName[n].name == n && c.byName[n].id in c.byId && c.byId[c.byName[n].id] == c.byName[n])
    && (forall i :: i in c.byId ==> c.byId[i].id == i && c.byId[i].name in c.byName && c.byName[c.byId[i].name] == c.byId[i])
  }

  lemma DistinctSnoc<T>(xs: seq<T>, x: T)
    ensures Distinct(xs + [x]) <==> Distinct(xs) && x !in xs
  {
    var ys := xs + [x];
    if Distinct(ys) {
      assert xs == ys[..|xs|];
      assert forall i :: 0 <= i < |xs| ==> ys[i] != ys[|xs|];
    }
  }

  /** Files a symbol under its name and its id. */
  function Insert(c: SymbolInfoConfig, s: SymbolInfo): SymbolInfoConfig
  {
    SymbolInfoConfig(c.byName[s.name := s], c.byId[s.id := s])
  }

  /** Inserting a symbol whose name and id are both new keeps the indexes
      consistent and adds exactly one name. */
  lemma InsertConsistent(c: SymbolInfoConfig, s: SymbolInfo)
    requires Consistent(c) && s.name !in c.byName && s.id !in c.byId
    ensures Consistent(Insert(c, s))
    ensures |Insert(c, s).byName| == |c.byName| + 1
  {
    var next := Insert(c, s);
    forall n | n in next.byName
      ensures next.byName[n].name == n && next.byName[n].id in next.byId && next.byId[next.byName[n].id] == next.byName[n]
    {
      if n != s.name {
        assert c.byName[n].id in c.byId;
      }
    }
    forall i | i in next.byId
      ensures next.byId[i].id == i && next.byId[i].name in next.byName && next.byName[next.byId[i].name] == next.byId[i]
    {
      if i != s.id {
        assert c.byId[i].name in c.byName;
      }
    }
  }

  /** `s` cannot be inserted after the distinct `prefix`, and `e` is the
      error it draws: its id is checked before its name. */
  predicate Clash(prefix: seq<SymbolInfo>, s: SymbolInfo, e: SymbolInfoError)
  {
    Distinct(Ids(prefix)) && Distinct(Names(prefix))
    && (s.id in Ids(prefix) ==> e == DuplicateId(s.id))
    && (s.id !in Ids(prefix) ==> s.name in Names(prefix) && e == DuplicateName(s.name))
  }

  /** Entry `k` is the first one that cannot be inserted, and `e` is the
      error it draws. */
  predicate FailsAt(entries: seq<SymbolInfo>, k: nat, e: SymbolInfoError)
    requires k < |entries|
  {
    Clash(entries[..k], entries[k], e)
  }

  /** `c` is the table built from `entries`: consistent indexes whose keys
      are exactly the entries' names and ids, each entry filed under its
      name, one name per entry. */
  ghost predicate Built(entries: seq<SymbolInfo>, c: SymbolInfoConfig)
  {
    Consistent(c)
    && (forall n :: n in c.byName <==> n in Names(entries))
    && (forall i :: i in c.byId <==> i in Ids(entries))
    && (forall k :: 0 <= k < |entries| ==> entries[k].name in c.byName && c.byName[entries[k].name] == entries[k])
    && |c.byName| == |entries|
  }

  lemma BuiltSnoc(entries: seq<SymbolInfo>, c: SymbolInfoConfig, s: SymbolInfo)
    requires Built(entries, c) && s.name !in c.byName && s.id !in c.byId
    ensures Built(entries + [s], Insert(c, s))
  {
    InsertConsistent(c, s);
    var all := entries + [s];
    var next := Insert(c, s);
    assert all[..|entries|] == entries;
    assert Names(all) == Names(entries) + [s.name];
    assert Ids(all) == Ids(entries) + [s.id];
    assert forall n :: n in next.byName <==> n in Names(all);
    assert forall i :: i in next.byId <==> i in Ids(all);
    forall k | 0 <= k < |all|
      ensures all[k].name in next.byName && next.byName[all[k].name] == all[k]
    {
      if k < |entries| {
        assert all[k] == entries[k];
        assert entries[k].name in c.byName;
      }
    }
  }

  lemma FailsAtLast(entries: seq<SymbolInfo>, s: SymbolInfo, e: SymbolInfoError)
    requires Clash(entries, s, e)
    ensures FailsAt(entries + [s], |entries|, e)
  {
    var all := entries + [s];
    assert all[..|entries|] == entries;
  }

  /** `SymbolInfoConfig::from_str` after the YAML layer: the entries are
      inserted in order; an entry whose id is already present fails with that
      id, otherwise one whose name is already present fails with that name. */
  function FromEntries(entries: seq<SymbolInfo>): (r: Result<SymbolInfoConfig, SymbolInfoError>)
    ensures r.Ok? <==> Distinct(Ids(entries)) && Distinct(Names(entries))
    ensures r.Ok? ==> Built(entries, r.value)
    ensures r.Err? ==> exists k :: 0 <= k < |entries| && FailsAt(entries, k, r.error)
  {
    if |entries| == 0 then Ok(SymbolInfoConfig(map[], map[]))
    else
      var init := entries[..|entries| - 1];
      var last := entries[|entries| - 1];
      assert entries == init + [last];
      assert Names(entries) == Names(init) + [last.name];
      assert Ids(entries) == Ids(init) + [last.id];
      DistinctSnoc(Ids(init), last.id);
      DistinctSnoc(Names(init), last.name);
      match FromEntries(init)
      case Err(e) =>
        assert forall k :: 0 <= k < |init| && FailsAt(init, k, e) ==> FailsAt(entries, k, e) by {
          assert forall k :: 0 <= k <= |init| ==> init[..k] == entries[..k];
        }
        Err(e)
      case Ok(c) =>
        if last.id in c.byId then
          FailsAtLast(init, last, DuplicateId(last.id));
          Err(DuplicateId(last.id))
        else if last.name in c.byName then
          FailsAtLast(init, last, DuplicateName(last.name));
          Err(DuplicateName(last.name))
        else
          BuiltSnoc(init, c, last);
          Ok(Insert(c, last))
  }

  /** `get_by_name`. */
  function GetByName(c: SymbolInfoConfig, name: string): (r: Option<SymbolInfo>)
    ensures r.Some? <==> name in c.byName
  {
    if name in c.byName then Some(c.byName[name]) else None
  }

  /** `get_by_id`. */
  function GetById(c: SymbolInfoConfig, id: u32): (r: Option<SymbolInfo>)
    ensures r.Some? <==> id in c.byId
  {
    if id in c.byId then Some(c.byId[id]) else None
  }

  /** `symbol_id`: the id filed under a name. */
  function SymbolId(c: SymbolInfoConfig, name: string): (r: Option<u32>)
    ensures r.Some? <==> GetByName(c, name).Some?
    ensures r.Some? ==> r.value == GetByName(c, name).value.id
  {
    if name in c.byName then Some(c.byName[name].id) else None
  }

  /** `symbols`: every symbol of the table, read off the name index. */
  function Symbols(c: SymbolInfoConfig): (r: set<SymbolInfo>)
    ensures forall s :: s in r <==> exists n :: n in c.byName && c.byName[n] == s
  {
    set n | n in c.byName :: c.byName[n]
  }

  /** A built table holds exactly the entries it was built from. */
  lemma SymbolsAreEntries(entries: seq<SymbolInfo>)
    requires FromEntries(entries).Ok?
    ensures forall s :: s in Symbols(FromEntries(entries).value) <==> s in entries
  {
    var c := FromEntries(entries).value;
    forall s | s in Symbols(c)
      ensures s in entries
    {
      var n :| n in c.byName && c.byName[n] == s;
      assert n in Names(entries);
      var k :| 0 <= k < |entries| && Names(entries)[k] == n;
    }
    forall s | s in entries
      ensures s in Symbols(c)
    {
      var k :| 0 <= k < |entries| && entries[k] == s;
    }
  }

  /** `len`: the number of symbols, counted on the name index. */
  function Len(c: SymbolInfoConfig): nat
  {
    |c.byName|
  }

  /** `is_empty`. */
  function IsEmpty(c: SymbolInfoConfig): bool
  {
    |c.byName| == 0
  }

  /** In a consistent table no two names share an id, so the ids filed under
      a set of names are as many as the names. */
  lemma {:induction false} IdsOfNames(c: SymbolInfoConfig, names: set<string>)
    requires Consistent(c) && names <= c.byName.Keys
    ensures |set n | n in names :: c.byName[n].id| == |names|
    decreases |names|
  {
    if names != {} {
      var x :| x in names;
      var rest := names - {x};
      IdsOfNames(c, rest);
      var restIds := set n | n in rest :: c.byName[n].id;
      assert c.byName[x].id !in restIds by {
        forall y | y in rest
          ensures c.byName[y].id != c.byName[x].id
        {
          assert c.byId[c.byName[y].id].name == y;
          assert c.byId[c.byName[x].id].name == x;
        }
      }
      assert (set n | n in names :: c.byName[n].id) == restIds + {c.byName[x].id};
    }
  }

  /** `len` and `is_empty` read the name index only; in a consistent table
      the id index has the same size, so either index would give the same
      answer. */
  lemma IndexSizesAgree(c: SymbolInfoConfig)
    requires Consistent(c)
    ensures Len(c) == |c.byId|
    ensures IsEmpty(c) <==> |c.byId| == 0
  {
    IdsOfNames(c, c.byName.Keys);
    assert (set n | n in c.byName.Keys :: c.byName[n].id) == c.byId.Keys;
  }

  /** Every entry of a built table is found by its name and by its id, and
      its id is returned for its name. */
  lemma LookupEntry(entries: seq<SymbolInfo>, k: nat)
    requires FromEntries(entries).Ok? && k < |entries|
    ensures GetByName(FromEntries(entries).value, entries[k].name) == Some(entries[k])
    ensures GetById(FromEntries(entries).value, entries[k].id) == Some(entries[k])
    ensures SymbolId(FromEntries(entries).value, entries[k].name) == Some(entries[k].id)
  {
  }

  /** A name or id that no entry has is not found. */
  lemma LookupAbsent(entries: seq<SymbolInfo>, name: string, id: u32)
    requires FromEntries(entries).Ok?
    ensures name !in Names(entries) ==> GetByName(FromEntries(entries).value, name) == None
    ensures id !in Ids(entries) ==> GetById(FromEntries(entries).value, id) == None
  {
  }

  /** The two lookups agree on a built table: a symbol found by name is found
      again by its id, and conversely. */
  lemma IndexesAgree(entries: seq<SymbolInfo>, name: string, id: u32)
    requires FromEntries(entries).Ok?
    ensures GetByName(FromEntries(entries).value, name).Some? ==>
      GetByName(FromEntries(entries).value, name).value.name == name
      && GetById(FromEntries(entries).value, GetByName(FromEntries(entries).value, name).value.id) == GetByName(FromEntries(entries).value, name)
    ensures GetById(FromEntries(entries).value, id).Some? ==>
      GetById(FromEntries(entries).value, id).value.id == id
      && GetByName(FromEntries(entries).value, GetById(FromEntries(entries).value, id).value.name) == GetById(FromEntries(entries).value, id)
  {
  }

  /** The table holds one symbol per entry. */
  lemma LenCountsEntries(entries: seq<SymbolInfo>)
    requires FromEntries(entries).Ok?
    ensures Len(FromEntries(entries).value) == |entries|
    ensures IsEmpty(FromEntries(entries).value) <==> |entries| == 0
  {
  }

  /** An entry that repeats both an earlier id and an earlier name is
      reported by its id. */
  lemma DuplicateIdReportedFirst(a: SymbolInfo, b: SymbolInfo)
    requires a.id == b.id
    ensures FromEntries([a, b]) == Err(DuplicateId(b.id))
  {
    assert [a, b][..1] == [a];
  }

  /** Two names for one id are rejected; two ids for one name are rejected. */
  lemma DuplicateExamples()
    ensures FromEntries([SymbolInfo("BTCUSDT", 1), SymbolInfo("ETHUSDT", 1)]) == Err(DuplicateId(1))
    ensures FromEntries([SymbolInfo("BTCUSDT", 1), SymbolInfo("BTCUSDT", 2)]) == Err(DuplicateName("BTCUSDT"))
  {
    assert [SymbolInfo("BTCUSDT", 1), SymbolInfo("ETHUSDT", 1)][..1] == [SymbolInfo("BTCUSDT", 1)];
    assert [SymbolInfo("BTCUSDT", 1), SymbolInfo("BTCUSDT", 2)][..1] == [SymbolInfo("BTCUSDT", 1)];
  }
}
