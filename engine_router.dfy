/**
 * The engine router: splits the symbol list into engineCount contiguous
 * shards, gives each shard its own matching engine, and forwards each
 * message and each last-price query to the engine that owns the symbol.
 * Engines are held in a sequence and engineMap maps a symbol to the index
 * of its engine.
 */
module EngineRouters {
  import opened Wrappers
  import opened PitchMessages
  import opened EngineSpec
  import opened EngineLayout
  import opened DataServices
  import opened MatchingEngines

  // ---------------------------------------------------------------------------
  // Shards

  /** Shard i gets total / count symbols, one more for the first total % count shards. */
  function ShardSize(total: nat, count: nat, i: nat): nat
    requires count > 0
  {
    total / count + (if i < total % count then 1 else 0)
  }

  /** Where shard i starts in the symbol list: the sizes of the shards before it, added up. */
  function ShardStart(total: nat, count: nat, i: nat): nat
    requires count > 0
  {
    if i == 0 then 0 else ShardStart(total, count, i - 1) + ShardSize(total, count, i - 1)
  }

  /** The start of shard i in closed form: i full shards plus one extra symbol for each of the first total % count. */
  lemma {:induction false} ShardStartClosed(total: nat, count: nat, i: nat)
    requires count > 0
    ensures ShardStart(total, count, i) == i * (total / count) + Min(i, total % count)
  {
    if i > 0 {
      ShardStartClosed(total, count, i - 1);
      assert (i - 1) * (total / count) + total / count == i * (total / count);
    }
  }

  /** Shards never start before the one before them. */
  lemma {:induction false} ShardStartMono(total: nat, count: nat, i: nat, j: nat)
    requires count > 0 && i <= j
    ensures ShardStart(total, count, i) <= ShardStart(total, count, j)
    decreases j - i
  {
    if i < j {
      ShardStartMono(total, count, i, j - 1);
    }
  }

  /** The shard after the last ends at the end of the list, so every shard lies inside it. */
  lemma ShardStarts(total: nat, count: nat, i: nat)
    requires count > 0 && i <= count
    ensures ShardStart(total, count, i) <= ShardStart(total, count, count) == total
  {
    ShardStartClosed(total, count, count);
    assert count * (total / count) + total % count == total;
    ShardStartMono(total, count, i, count);
  }

  /** The symbols of shard i. */
  function Shard(symbolList: seq<string>, count: nat, i: nat): seq<string>
    requires count > 0 && i < count
  {
    ShardStarts(|symbolList|, count, i);
    ShardStarts(|symbolList|, count, i + 1);
    symbolList[ShardStart(|symbolList|, count, i)..ShardStart(|symbolList|, count, i + 1)]
  }

  /** The shards joined in order. */
  function Flatten(shards: seq<seq<string>>): seq<string> {
    if shards == [] then [] else Flatten(shards[..|shards| - 1]) + shards[|shards| - 1]
  }

  /**
   * splitSymbolList: engineCount shards, filled in order by a running index,
   * shard i with ShardSize symbols.
   */
  method SplitSymbolList(symbolList: seq<string>, engineCount: int) returns (splitSymbols: seq<seq<string>>)
    requires engineCount > 0
    ensures |splitSymbols| == engineCount
    ensures forall i :: 0 <= i < engineCount ==> splitSymbols[i] == Shard(symbolList, engineCount, i)
  {
    splitSymbols := seq(engineCount, _ => []);
    var totalSymbols := |symbolList|;
    var baseSize := totalSymbols / engineCount;
    var remainder := totalSymbols % engineCount;
    var index := 0;
    for i := 0 to engineCount
      invariant |splitSymbols| == engineCount
      invariant index == ShardStart(totalSymbols, engineCount, i)
      invariant forall k :: 0 <= k < i ==> splitSymbols[k] == Shard(symbolList, engineCount, k)
      invariant forall k :: i <= k < engineCount ==> splitSymbols[k] == []
    {
      ShardStarts(totalSymbols, engineCount, i);
      ShardStarts(totalSymbols, engineCount, i + 1);
      var currentSize := baseSize + (if i < remainder then 1 else 0);
      for j := 0 to currentSize
        invariant |splitSymbols| == engineCount
        invariant index == ShardStart(totalSymbols, engineCount, i) + j
        invariant splitSymbols[i] == symbolList[ShardStart(totalSymbols, engineCount, i)..index]
        invariant forall k :: 0 <= k < i ==> splitSymbols[k] == Shard(symbolList, engineCount, k)
        invariant forall k :: i < k < engineCount ==> splitSymbols[k] == []
      {
        splitSymbols := splitSymbols[i := splitSymbols[i] + [symbolList[index]]];
        index := index + 1;
      }
    }
  }

  /** The shards, read left to right, are the symbol list itself: every symbol lands in exactly one place. */
  lemma {:induction false} ShardsFlatten(symbolList: seq<string>, count: nat, shards: seq<seq<string>>, n: nat)
    requires count > 0 && |shards| == count && n <= count
    requires forall i :: 0 <= i < count ==> shards[i] == Shard(symbolList, count, i)
    ensures ShardStart(|symbolList|, count, n) <= |symbolList|
    ensures Flatten(shards[..n]) == symbolList[..ShardStart(|symbolList|, count, n)]
    ensures n == count ==> Flatten(shards) == symbolList
    decreases n
  {
    ShardStarts(|symbolList|, count, n);
    if n > 0 {
      ShardsFlatten(symbolList, count, shards, n - 1);
      ShardStarts(|symbolList|, count, n - 1);
      assert shards[..n][..n - 1] == shards[..n - 1];
      var a, b := ShardStart(|symbolList|, count, n - 1), ShardStart(|symbolList|, count, n);
      assert symbolList[..a] + symbolList[a..b] == symbolList[..b];
    }
    if n == count {
      assert shards[..n] == shards;
    }
  }

  /** Shard sizes follow ShardSize: they differ by at most one and never grow from one shard to the next. */
  lemma ShardSizes(symbolList: seq<string>, count: nat, i: nat, j: nat)
    requires count > 0 && i < count && j < count
    ensures |Shard(symbolList, count, i)| == ShardSize(|symbolList|, count, i)
    ensures ShardSize(|symbolList|, count, i) <= ShardSize(|symbolList|, count, j) + 1
    ensures i <= j ==> ShardSize(|symbolList|, count, j) <= ShardSize(|symbolList|, count, i)
  {
    ShardStarts(|symbolList|, count, i + 1);
  }

  // ---------------------------------------------------------------------------
  // The routing table

  /** engineMap.emplace(symbol, i) for each symbol in turn: a symbol already present keeps its engine. */
  function Emplaced(m: map<string, nat>, symbols: seq<string>, i: nat): map<string, nat> {
    if symbols == [] then m
    else
      var m' := Emplaced(m, symbols[..|symbols| - 1], i);
      var s := symbols[|symbols| - 1];
      if s in m' then m' else m'[s := i]
  }

  /** The table the constructors build, shard after shard. */
  function RouteTable(shards: seq<seq<string>>): map<string, nat> {
    if shards == [] then map[] else Emplaced(RouteTable(shards[..|shards| - 1]), shards[|shards| - 1], |shards| - 1)
  }

  lemma {:induction false} EmplacedFacts(m: map<string, nat>, symbols: seq<string>, i: nat)
    ensures var r := Emplaced(m, symbols, i);
      forall s :: (s in r <==> s in m || s in symbols) && (s in m ==> r[s] == m[s]) && (s in r && s !in m ==> r[s] == i)
    decreases |symbols|
  {
    if symbols != [] {
      var init := symbols[..|symbols| - 1];
      EmplacedFacts(m, init, i);
      assert symbols == init + [symbols[|symbols| - 1]];
    }
  }

  /**
   * Every listed symbol is routed, and to the first shard that holds it
   * (a later duplicate does not move it); no other symbol is routed.
   */
  lemma {:induction false} RouteTableFirst(shards: seq<seq<string>>, s: string)
    ensures var t := RouteTable(shards);
      (s in t <==> exists i :: 0 <= i < |shards| && s in shards[i])
      && (s in t ==> t[s] < |shards| && s in shards[t[s]] && forall j :: 0 <= j < t[s] ==> s !in shards[j])
    decreases |shards|
  {
    if shards != [] {
      var n := |shards| - 1;
      var init := shards[..n];
      var t0 := RouteTable(init);
      RouteTableFirst(init, s);
      EmplacedFacts(t0, shards[n], n);
      assert forall i :: 0 <= i < n ==> init[i] == shards[i];
      if s !in t0 && s !in shards[n] {
        forall i | 0 <= i < |shards| ensures s !in shards[i] {
          if i < n { assert shards[i] == init[i]; }
        }
      }
    }
  }

  /** An engine just built for shard: empty books listing the shard's symbols, no orders, no trades yet. */
  ghost predicate Built(engine: MatchingEngine, shard: seq<string>, dataServicePtr: DataService?)
    reads engine, engine.idMap.Values
  {
    engine.Valid() && engine.dataService == dataServicePtr && engine.executions == [] && engine.idMap == map[]
    && engine.State() == Engine(Populated(map[], shard), Populated(map[], shard), map[], map[])
  }

  /** matchingEngines.emplace_back(dataServicePtr) followed by populateSymbols(shard). */
  method NewPopulated(shard: seq<string>, dataServicePtr: DataService?) returns (engine: MatchingEngine)
    ensures fresh(engine) && Built(engine, shard, dataServicePtr)
  {
    engine := new MatchingEngine(dataServicePtr);
    engine.PopulateSymbols(shard);
  }

  /** The inner loop of the constructors: engineMap.emplace(symbol, engine) for each symbol of one shard. */
  method EmplaceAll(table: map<string, nat>, symbols: seq<string>, i: nat) returns (table': map<string, nat>)
    ensures table' == Emplaced(table, symbols, i)
  {
    table' := table;
    for j := 0 to |symbols|
      invariant table' == Emplaced(table, symbols[..j], i)
    {
      assert symbols[..j + 1][..j] == symbols[..j];
      if symbols[j] !in table' {
        table' := table'[symbols[j] := i];
      }
    }
    assert symbols[..|symbols|] == symbols;
  }

  /** A fresh, populated engine for each shard, the engines all distinct. */
  method BuildEngines(shards: seq<seq<string>>, dataServicePtr: DataService?) returns (engines: seq<MatchingEngine>)
    ensures |engines| == |shards|
    ensures forall i, j :: 0 <= i < j < |engines| ==> engines[i] != engines[j]
    ensures forall i :: 0 <= i < |engines| ==> fresh(engines[i]) && Built(engines[i], shards[i], dataServicePtr)
  {
    engines := [];
    for i := 0 to |shards|
      invariant |engines| == i
      invariant forall a, b :: 0 <= a < b < i ==> engines[a] != engines[b]
      invariant forall k :: 0 <= k < i ==> fresh(engines[k]) && Built(engines[k], shards[k], dataServicePtr)
    {
      var engine := NewPopulated(shards[i], dataServicePtr);
      engines := engines + [engine];
    }
  }

  /** The table mapping each symbol to the index of its first shard, built shard after shard. */
  method BuildTable(shards: seq<seq<string>>) returns (table: map<string, nat>)
    ensures table == RouteTable(shards)
    ensures forall s :: s in table ==> table[s] < |shards|
  {
    table := map[];
    for i := 0 to |shards|
      invariant table == RouteTable(shards[..i])
    {
      table := EmplaceAll(table, shards[i], i);
      assert shards[..i + 1][..i] == shards[..i];
    }
    assert shards[..|shards|] == shards;
    forall s | s in table ensures table[s] < |shards| {
      RouteTableFirst(shards, s);
    }
  }

  // ---------------------------------------------------------------------------
  // The router

  class EngineRouter {
    var engineCount: int
    var matchingEngines: seq<MatchingEngine>
    var engineMap: map<string, nat>
    /** The symbol lists the engines were populated with. */
    ghost var shards: seq<seq<string>>

    /** One engine per shard, and every routed symbol points at one of them. */
    ghost predicate Routed()
      reads this
    {
      |matchingEngines| == engineCount == |shards| && forall s :: s in engineMap ==> engineMap[s] < |matchingEngines|
    }

    /** The engine that owns symbol. */
    ghost function Owner(symbol: string): MatchingEngine
      reads this
      requires Routed() && symbol in engineMap
    {
      matchingEngines[engineMap[symbol]]
    }

    /** The router without a data service: engines populated shard by shard, symbols routed to their first shard. */
    constructor (symbolList: seq<string>, newEngineCount: int)
      requires newEngineCount > 0
      ensures Routed() && engineCount == newEngineCount
      ensures forall i :: 0 <= i < engineCount ==> shards[i] == Shard(symbolList, engineCount, i)
      ensures Flatten(shards) == symbolList && engineMap == RouteTable(shards)
      ensures forall i, j :: 0 <= i < j < engineCount ==> matchingEngines[i] != matchingEngines[j]
      ensures forall i :: 0 <= i < engineCount ==> fresh(matchingEngines[i]) && Built(matchingEngines[i], shards[i], null)
    {
      engineCount := newEngineCount;
      var symbolLists := SplitSymbolList(symbolList, newEngineCount);
      var engines := BuildEngines(symbolLists, null);
      var table := BuildTable(symbolLists);
      ShardsFlatten(symbolList, newEngineCount, symbolLists, newEngineCount);
      matchingEngines := engines;
      engineMap := table;
      shards := symbolLists;
    }

    /** The router whose engines all report to dataServicePtr. */
    constructor WithDataService(symbolList: seq<string>, newEngineCount: int, dataServicePtr: DataService?)
      requires newEngineCount > 0
      ensures Routed() && engineCount == newEngineCount
      ensures forall i :: 0 <= i < engineCount ==> shards[i] == Shard(symbolList, engineCount, i)
      ensures Flatten(shards) == symbolList && engineMap == RouteTable(shards)
      ensures forall i, j :: 0 <= i < j < engineCount ==> matchingEngines[i] != matchingEngines[j]
      ensures forall i :: 0 <= i < engineCount ==> fresh(matchingEngines[i]) && Built(matchingEngines[i], shards[i], dataServicePtr)
    {
      engineCount := newEngineCount;
      var symbolLists := SplitSymbolList(symbolList, newEngineCount);
      var engines := BuildEngines(symbolLists, dataServicePtr);
      var table := BuildTable(symbolLists);
      ShardsFlatten(symbolList, newEngineCount, symbolLists, newEngineCount);
      matchingEngines := engines;
      engineMap := table;
      shards := symbolLists;
    }

    /** connectDataService: every engine reports to dataServicePtr; nothing else about them changes. */
    method ConnectDataService(dataServicePtr: DataService?)
      modifies matchingEngines
      ensures forall i :: 0 <= i < |matchingEngines| ==>
        matchingEngines[i].dataService == dataServicePtr
        && matchingEngines[i].State() == old(matchingEngines[i].State())
        && matchingEngines[i].idMap == old(matchingEngines[i].idMap)
        && matchingEngines[i].executions == old(matchingEngines[i].executions)
        && (old(matchingEngines[i].Valid()) ==> matchingEngines[i].Valid())
    {
      var engines := matchingEngines;
      for i := 0 to |engines|
        invariant forall k :: 0 <= k < i ==> engines[k].dataService == dataServicePtr
        invariant forall k :: 0 <= k < |engines| ==>
          engines[k].State() == old(engines[k].State())
          && engines[k].idMap == old(engines[k].idMap)
          && engines[k].executions == old(engines[k].executions)
          && (old(engines[k].Valid()) ==> engines[k].Valid())
      {
        engines[i].SetDataService(dataServicePtr);
      }
    }

    /** What a message for symbol may change: its owning engine and that engine's orders. */
    ghost function RouteFrame(p: Params): set<object>
      reads this, matchingEngines
      requires Routed()
    {
      if Symbol(p).Success? && Symbol(p).value in engineMap then
        {Owner(Symbol(p).value)} + Owner(Symbol(p).value).idMap.Values
      else {}
    }

    /**
     * routeMessage: the message goes, unchanged, to its symbol's engine. A
     * message without a Symbol parameter (a Cancel built from its field
     * list has none) fails before reaching any engine.
     */
    method RouteMessage(msg: PitchMessage) returns (err: Option<Error>)
      requires Routed()
      requires Symbol(msg.params).Success? ==> Symbol(msg.params).value in engineMap
      requires Symbol(msg.params).Success? ==>
        Owner(Symbol(msg.params).value).Valid() && IngestPre(Owner(Symbol(msg.params).value).State(), msg.params)
      modifies RouteFrame(msg.params)
      ensures Symbol(msg.params).Failure? ==> err == Some(Symbol(msg.params).error)
      ensures Symbol(msg.params).Success? ==>
        var owner := Owner(Symbol(msg.params).value);
        var h := Ingest(old(owner.State()), msg.params);
        owner.Valid() && owner.State() == h.engine && err == h.error
    {
      var symbol := Symbol(msg.params);
      if symbol.Failure? {
        return Some(symbol.error);
      }
      var engine := matchingEngines[engineMap[symbol.value]];
      ghost var fills;
      err, fills := engine.IngestMessage(msg);
    }

    /** routeGetLastPrice: the owning engine's last price for symbol; an unrouted symbol is the out_of_range that .at throws. */
    function RouteGetLastPrice(symbol: string): (r: Result<Option<int>>)
      reads this, matchingEngines
      requires Routed()
      ensures r.Success? <==> symbol in engineMap
      ensures r.Success? ==> (r.value.Some? <==> symbol in Owner(symbol).State().lastPrice)
      ensures r.Success? && r.value.Some? ==> r.value.value == Owner(symbol).State().lastPrice[symbol]
      ensures r.Failure? ==> r.error == UnroutedSymbol
    {
      if symbol !in engineMap then Failure(UnroutedSymbol)
      else Success(matchingEngines[engineMap[symbol]].GetLastPrice(symbol))
    }
  }
}
