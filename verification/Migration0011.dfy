/** Migration 0011: splitting every chain into a chat and an embeddings lane, and flattening
    the lanes again. A table without the lane column is one whose rows are all chat rows. */
module Migration0011 {
  import opened Prelude
  import opened Metering
  import opened Ordering
  import opened Routing
  import opened ChainTables

  /** The provider of every credential in the account table. */
  type Providers = map<Id, string>

  predicate Capable(providers: Providers, account: Id) {
    account in providers && (providers[account] == "openai" || providers[account] == "openrouter")
  }

  /** The primary key and the unique constraint on (chain, lane, position). */
  ghost predicate UniqueRows(rows: seq<EntryRow>) {
    forall i, j | 0 <= i < j < |rows| ::
      && rows[i].id != rows[j].id
      && !(rows[i].chainId == rows[j].chainId && rows[i].routeKind == rows[j].routeKind
           && rows[i].position == rows[j].position)
  }

  ghost predicate LaneLess(rows: seq<EntryRow>) {
    forall e | e in rows :: e.routeKind.Chat?
  }

  predicate ByPosition(a: EntryRow, b: EntryRow) {
    a.position < b.position
  }

  /** Chat before embeddings, then by position, then by id. */
  predicate Flatter(a: EntryRow, b: EntryRow) {
    || LaneRank(a.routeKind) < LaneRank(b.routeKind)
    || (a.routeKind == b.routeKind && (a.position < b.position || (a.position == b.position && a.id < b.id)))
  }

  predicate ChainOrder(a: EntryRow, b: EntryRow) {
    a.chainId < b.chainId || (a.chainId == b.chainId && LaneOrder(a, b))
  }

  /** `ROW_NUMBER() OVER (PARTITION BY chain_id ORDER BY ...) - 1`: how many rows of the
      partition come before. */
  function RowNumber(rows: seq<EntryRow>, e: EntryRow, before: (EntryRow, EntryRow) -> bool): nat {
    |Filter(rows, (r: EntryRow) => r.chainId == e.chainId && before(r, e))|
  }

  function CapableRows(entries: seq<EntryRow>, providers: Providers): seq<EntryRow> {
    Filter(entries, (e: EntryRow) => Capable(providers, e.accountId))
  }

  /** The embeddings-lane copy of a capable row. */
  function CopyOf(capable: seq<EntryRow>, freshId: EntryRow -> nat, e: EntryRow): EntryRow {
    EntryRow(freshId(e), e.chainId, RowNumber(capable, e, ByPosition), e.accountId, None, e.policy, Embeddings)
  }

  function Upgraded(entries: seq<EntryRow>, providers: Providers, freshId: EntryRow -> nat): seq<EntryRow> {
    var capable := CapableRows(entries, providers);
    entries + Map(Sort(capable, ChainOrder), (e: EntryRow) => CopyOf(capable, freshId, e))
  }

  function FlatRow(entries: seq<EntryRow>, e: EntryRow): EntryRow {
    e.(position := RowNumber(entries, e, Flatter), routeKind := Chat)
  }

  function Flattened(entries: seq<EntryRow>): seq<EntryRow> {
    Map(entries, (e: EntryRow) => FlatRow(entries, e))
  }

  class ChainEntryTable {
    var entries: seq<EntryRow>

    constructor (rows: seq<EntryRow>)
      ensures entries == rows
    {
      entries := rows;
    }

    /** Select the capable rows with their row numbers, then insert them one by one under
        fresh ids. */
    method Upgrade(providers: Providers, freshId: EntryRow -> nat)
      modifies this
      ensures entries == Upgraded(old(entries), providers, freshId)
    {
      var capable := CapableRows(entries, providers);
      var selected := Sort(capable, ChainOrder);
      hide CapableRows, Sort, RowNumber;
      for i := 0 to |selected|
        invariant entries == old(entries) + Map(selected[..i], (e: EntryRow) => CopyOf(capable, freshId, e))
      {
        var row := selected[i];
        entries := entries + [EntryRow(freshId(row), row.chainId, RowNumber(capable, row, ByPosition), row.accountId,
                                       None, row.policy, Embeddings)];
      }
      assert selected[..|selected|] == selected;
    }

    /** One UPDATE from ranks taken before it, then the lane column goes. */
    method Downgrade()
      modifies this
      ensures entries == Flattened(old(entries))
    {
      var ranked := entries;
      hide RowNumber;
      for i := 0 to |ranked|
        invariant |entries| == |ranked| && ranked == old(entries)
        invariant forall j | 0 <= j < i :: entries[j] == FlatRow(ranked, ranked[j])
        invariant entries[i..] == ranked[i..]
      {
        entries := entries[i := ranked[i].(position := RowNumber(ranked, ranked[i], Flatter), routeKind := Chat)];
      }
    }
  }

  // --- Row order -------------------------------------------------------------

  lemma {:induction false} UniqueCount(rows: seq<EntryRow>, e: EntryRow)
    requires UniqueRows(rows)
    ensures Count(rows, e) <= 1
  {
    if rows != [] {
      UniqueCount(rows[1..], e);
      if rows[0] == e {
        CountMember(rows[1..], e);
        assert forall j | 1 <= j < |rows| :: rows[j].id != e.id;
      }
    }
  }

  lemma SameKeySameRow(rows: seq<EntryRow>, a: EntryRow, b: EntryRow)
    requires UniqueRows(rows) && a in rows && b in rows
    requires a.chainId == b.chainId && a.routeKind == b.routeKind && a.position == b.position
    ensures a == b
  {
    var i :| 0 <= i < |rows| && rows[i] == a;
    var j :| 0 <= j < |rows| && rows[j] == b;
  }

  /** A chain's rows have one order, without ties. */
  lemma OrderedStrictly(entries: seq<EntryRow>, chainId: nat)
    requires UniqueRows(entries)
    ensures StrictlySorted(OrderedEntries(entries, chainId), LaneOrder)
  {
    var rows := OfChain(entries, chainId);
    var s := OrderedEntries(entries, chainId);
    LaneOrderTotal();
    SortSorted(rows, LaneOrder);
    SortMembers(rows, LaneOrder);
    hide Filter, Sort;
    forall i, j | 0 <= i < j < |s|
      ensures LaneOrder(s[i], s[j]) && !LaneOrder(s[j], s[i])
    {
      assert s[i] in rows && s[j] in rows;
      if LaneOrder(s[j], s[i]) {
        SameKeySameRow(entries, s[i], s[j]);
        CountTwice(s, i, j);
        SortCounts(rows, LaneOrder, s[i]);
        CountFilter(entries, (e: EntryRow) => e.chainId == chainId, s[i]);
        UniqueCount(entries, s[i]);
      }
    }
  }

  lemma OrderedMembers(entries: seq<EntryRow>, chainId: nat)
    ensures forall e :: e in OrderedEntries(entries, chainId) <==> e in entries && e.chainId == chainId
  {
    SortMembers(OfChain(entries, chainId), LaneOrder);
  }

  /** The arrangement of the rows in the table does not matter to a chain read. */
  lemma ArrangementIrrelevant(stored: seq<EntryRow>, entries: seq<EntryRow>, chainId: nat)
    requires UniqueRows(entries) && Permutation(stored, entries)
    ensures OrderedEntries(stored, chainId) == OrderedEntries(entries, chainId)
  {
    OrderedStrictly(entries, chainId);
    LaneOrderTotal();
    var b := OrderedEntries(entries, chainId);
    forall x
      ensures Count(OfChain(stored, chainId), x) == Count(b, x)
    {
      assert Count(stored, x) == Count(entries, x);
      CountFilter(stored, (e: EntryRow) => e.chainId == chainId, x);
      CountFilter(entries, (e: EntryRow) => e.chainId == chainId, x);
      SortCounts(OfChain(entries, chainId), LaneOrder, x);
    }
    SortIs(OfChain(stored, chainId), b, LaneOrder);
  }

  // --- Upgrade ---------------------------------------------------------------

  /** The capable rows of one chain, in chain order. */
  function CapableOrder(entries: seq<EntryRow>, providers: Providers, chainId: nat): seq<EntryRow> {
    CapableRows(OrderedEntries(entries, chainId), providers)
  }

  /** What the migration selects for a chain is that chain's capable rows in chain order. */
  lemma SelectedOfChain(entries: seq<EntryRow>, providers: Providers, chainId: nat)
    ensures OfChain(Sort(CapableRows(entries, providers), ChainOrder), chainId)
            == CapableOrder(entries, providers, chainId)
  {
    var cap := (e: EntryRow) => Capable(providers, e.accountId);
    var mine := (e: EntryRow) => e.chainId == chainId;
    var both := (e: EntryRow) => e.chainId == chainId && Capable(providers, e.accountId);
    LaneOrderTotal();
    FilterSort(CapableRows(entries, providers), ChainOrder, mine);
    FilterSort(OfChain(entries, chainId), LaneOrder, cap);
    FilterTwice(entries, cap, mine, both);
    FilterTwice(entries, mine, cap, both);
    SortCongruent(Filter(entries, both), ChainOrder, LaneOrder);
  }

  lemma CapableOrdered(entries: seq<EntryRow>, providers: Providers, chainId: nat)
    requires UniqueRows(entries)
    ensures var order := CapableOrder(entries, providers, chainId);
            && StrictlySorted(order, LaneOrder)
            && forall e | e in order :: e in entries && e.chainId == chainId && Capable(providers, e.accountId)
  {
    OrderedStrictly(entries, chainId);
    OrderedMembers(entries, chainId);
    FilterStrict(OrderedEntries(entries, chainId), LaneOrder, (r: EntryRow) => Capable(providers, r.accountId));
  }

  lemma RowNumberAt(rows: seq<EntryRow>, e: EntryRow, le: (EntryRow, EntryRow) -> bool,
                    before: (EntryRow, EntryRow) -> bool)
    requires TotalPreorder(le)
    ensures RowNumber(rows, e, before)
            == |Filter(OfChain(Sort(rows, le), e.chainId), (r: EntryRow) => before(r, e))|
  {
    var partition := (r: EntryRow) => r.chainId == e.chainId && before(r, e);
    RankUnsorted(rows, le, partition);
    FilterTwice(Sort(rows, le), (r: EntryRow) => r.chainId == e.chainId, (r: EntryRow) => before(r, e), partition);
  }

  ghost predicate Ascending(order: seq<EntryRow>) {
    forall i, j | 0 <= i < j < |order| :: order[i].position < order[j].position
  }

  lemma OneLaneAscends(order: seq<EntryRow>, kind: RouteKind)
    requires StrictlySorted(order, LaneOrder) && forall e | e in order :: e.routeKind == kind
    ensures Ascending(order)
  {
    forall i, j | 0 <= i < j < |order|
      ensures order[i].position < order[j].position
    {
      assert order[i] in order && order[j] in order;
      assert LaneOrder(order[i], order[j]) && !LaneOrder(order[j], order[i]);
    }
  }

  lemma RankAt(order: seq<EntryRow>, i: nat, before: (EntryRow, EntryRow) -> bool)
    requires i < |order| && forall j | 0 <= j < |order| :: before(order[j], order[i]) == (j < i)
    ensures |Filter(order, (r: EntryRow) => before(r, order[i]))| == i
  {
    RankInOrder(order, i, (r: EntryRow) => before(r, order[i]));
  }

  /** The i-th selected row of a chain gets position i. */
  lemma CopyPosition(entries: seq<EntryRow>, providers: Providers, chainId: nat, i: nat)
    requires UniqueRows(entries) && LaneLess(entries)
    requires i < |CapableOrder(entries, providers, chainId)|
    ensures RowNumber(CapableRows(entries, providers), CapableOrder(entries, providers, chainId)[i], ByPosition) == i
  {
    hide Filter, Sort, CapableOrder, CapableRows, OfChain, RowNumber;
    var order := CapableOrder(entries, providers, chainId);
    CapableOrdered(entries, providers, chainId);
    OneLaneAscends(order, Chat);
    SelectedOfChain(entries, providers, chainId);
    assert order[i] in order;
    ChainOrderTotal();
    RowNumberAt(CapableRows(entries, providers), order[i], ChainOrder, ByPosition);
    RankAt(order, i, ByPosition);
  }

  /** Which rows of a chain are copied: those of accounts with an embeddings endpoint. */
  lemma CopiedRows(entries: seq<EntryRow>, providers: Providers, chainId: nat, e: EntryRow)
    ensures e in CapableOrder(entries, providers, chainId)
       <==> e in entries && e.chainId == chainId && e.accountId in providers
            && providers[e.accountId] in {"openai", "openrouter"}
  {
    OrderedMembers(entries, chainId);
  }

  /** What the copy of a chain's i-th such row says: the same account and policy, any model, the
      embeddings lane, at position i. */
  lemma CopySays(entries: seq<EntryRow>, providers: Providers, freshId: EntryRow -> nat, chainId: nat, i: nat)
    requires UniqueRows(entries) && LaneLess(entries)
    requires i < |CapableOrder(entries, providers, chainId)|
    ensures var e := CapableOrder(entries, providers, chainId)[i];
            CopyOf(CapableRows(entries, providers), freshId, e)
            == EntryRow(freshId(e), chainId, i, e.accountId, None, e.policy, Embeddings)
  {
    CopyPosition(entries, providers, chainId, i);
    CopiedRows(entries, providers, chainId, CapableOrder(entries, providers, chainId)[i]);
    hide CapableRows, CapableOrder, RowNumber;
  }

  lemma ChainOrderTotal()
    ensures TotalPreorder(ChainOrder)
  {
  }

  lemma LaneOf(entries: seq<EntryRow>, chainId: nat, kind: RouteKind)
    ensures Filter(OfChain(entries, chainId), (e: EntryRow) => e.routeKind == kind) == LaneRows(entries, chainId, kind)
  {
    FilterTwice(entries, (e: EntryRow) => e.chainId == chainId, (e: EntryRow) => e.routeKind == kind,
                (e: EntryRow) => e.chainId == chainId && e.routeKind == kind);
  }

  /** Loading a chain and taking one lane gives that lane's rows by position. */
  lemma LoadedLaneSorted(entries: seq<EntryRow>, chainId: nat, kind: RouteKind)
    ensures ForRoute(LoadRoutingChain(entries, chainId), kind)
            == Map(Sort(LaneRows(entries, chainId, kind), LaneOrder), ToTarget)
  {
    LaneOrderTotal();
    LaneOf(entries, chainId, kind);
    FilterSort(OfChain(entries, chainId), LaneOrder, (e: EntryRow) => e.routeKind == kind);
    FilterMap(OrderedEntries(entries, chainId), ToTarget,
              (e: EntryRow) => e.routeKind == kind, (t: RoutingTarget) => t.routeKind == kind);
  }

  /** The chat lane after the upgrade is the whole chain before it. */
  lemma UpgradedChatLane(entries: seq<EntryRow>, providers: Providers, freshId: EntryRow -> nat, chainId: nat)
    requires LaneLess(entries)
    ensures LaneRows(Upgraded(entries, providers, freshId), chainId, Chat) == OfChain(entries, chainId)
  {
    var capable := CapableRows(entries, providers);
    var copies := Map(Sort(capable, ChainOrder), (e: EntryRow) => CopyOf(capable, freshId, e));
    var lane := (e: EntryRow) => e.chainId == chainId && e.routeKind == Chat;
    FilterAppend(entries, copies, lane);
    assert forall e | e in copies :: e.routeKind.Embeddings?;
    FilterAll(copies, lane);
    LaneOf(entries, chainId, Chat);
    FilterAll(OfChain(entries, chainId), (e: EntryRow) => e.routeKind == Chat);
  }

  /** The embeddings lane after the upgrade holds the copies of the chain's capable rows. */
  lemma UpgradedEmbeddingsLane(entries: seq<EntryRow>, providers: Providers, freshId: EntryRow -> nat, chainId: nat)
    requires LaneLess(entries)
    ensures LaneRows(Upgraded(entries, providers, freshId), chainId, Embeddings)
            == Map(CapableOrder(entries, providers, chainId),
                   (e: EntryRow) => CopyOf(CapableRows(entries, providers), freshId, e))
  {
    var capable := CapableRows(entries, providers);
    var selected := Sort(capable, ChainOrder);
    var lane := (e: EntryRow) => e.chainId == chainId && e.routeKind == Embeddings;
    var copy := (e: EntryRow) => CopyOf(capable, freshId, e);
    FilterAppend(entries, Map(selected, copy), lane);
    FilterAll(entries, lane);
    FilterMap(selected, copy, (e: EntryRow) => e.chainId == chainId, lane);
    SelectedOfChain(entries, providers, chainId);
  }

  /** The copies' positions are 0, 1, ... in the order of the rows they copy. */
  lemma CopiesAscend(entries: seq<EntryRow>, providers: Providers, freshId: EntryRow -> nat, chainId: nat)
    requires UniqueRows(entries) && LaneLess(entries)
    ensures Contiguous(LaneRows(Upgraded(entries, providers, freshId), chainId, Embeddings))
  {
    UpgradedEmbeddingsLane(entries, providers, freshId, chainId);
    var order := CapableOrder(entries, providers, chainId);
    forall i | 0 <= i < |order|
      ensures CopyOf(CapableRows(entries, providers), freshId, order[i]).position == i
    {
      CopyPosition(entries, providers, chainId, i);
    }
  }

  // --- Evaluation ------------------------------------------------------------

  function CapableAccount(providers: Providers): Id -> bool {
    (a: Id) => Capable(providers, a)
  }

  function Keeping(targets: seq<RoutingTarget>, keep: Id -> bool): seq<RoutingTarget> {
    Filter(targets, (t: RoutingTarget) => keep(t.accountId))
  }

  /** Dropping accounts commutes with evaluation, whichever account the session prefers. */
  lemma EvaluateFilter(targets: seq<RoutingTarget>, states: States, pref: Option<Id>, keep: Id -> bool)
    ensures Keeping(EvaluateChain(targets, states, pref), keep) == EvaluateChain(Keeping(targets, keep), states, pref)
  {
    hide Filter, EvaluateChain;
    var kept := (t: RoutingTarget) => keep(t.accountId);
    var some := AvailableEntries(targets, states);
    FilterSwap(targets, (t: RoutingTarget) => Available(states, t.accountId), kept);
    EvaluationSplits(targets, states, pref);
    EvaluationSplits(Keeping(targets, keep), states, pref);
    if pref.Some? {
      FilterSwap(some, (t: RoutingTarget) => t.accountId == pref.value, kept);
      FilterSwap(some, (t: RoutingTarget) => t.accountId != pref.value, kept);
      FilterAppend(Mine(some, pref.value), Others(some, pref.value), kept);
    }
  }

  lemma FilterSwap<T>(s: seq<T>, p: T -> bool, q: T -> bool)
    ensures Filter(Filter(s, p), q) == Filter(Filter(s, q), p)
  {
    FilterTwice(s, p, q, (x: T) => p(x) && q(x));
    FilterTwice(s, q, p, (x: T) => p(x) && q(x));
  }

  /** Evaluation looks at nothing but the account. */
  lemma EvaluateMap(targets: seq<RoutingTarget>, states: States, pref: Option<Id>, f: RoutingTarget -> RoutingTarget)
    requires forall t :: f(t).accountId == t.accountId
    ensures EvaluateChain(Map(targets, f), states, pref) == Map(EvaluateChain(targets, states, pref), f)
  {
    hide Filter, Map, EvaluateChain;
    var available := (t: RoutingTarget) => Available(states, t.accountId);
    var some := AvailableEntries(targets, states);
    FilterMap(targets, f, available, available);
    EvaluationSplits(targets, states, pref);
    EvaluationSplits(Map(targets, f), states, pref);
    if pref.Some? {
      var mine := (t: RoutingTarget) => t.accountId == pref.value;
      var others := (t: RoutingTarget) => t.accountId != pref.value;
      FilterMap(some, f, mine, mine);
      FilterMap(some, f, others, others);
      MapAppend(Mine(some, pref.value), Others(some, pref.value), f);
    }
  }

  /** What an embeddings request uses of a node: its account and its policy. The model comes
      from the request. */
  function Hop(t: RoutingTarget): RoutingTarget {
    t.(modelId := None, routeKind := Embeddings, nodeId := None, position := None)
  }

  lemma HopOfCopy(order: seq<EntryRow>, copy: EntryRow -> EntryRow)
    requires forall e :: copy(e).accountId == e.accountId && copy(e).policy == e.policy
    ensures Map(Map(Map(order, copy), ToTarget), Hop) == Map(Map(order, ToTarget), Hop)
  {
    var a, b := Map(Map(Map(order, copy), ToTarget), Hop), Map(Map(order, ToTarget), Hop);
    forall i | 0 <= i < |order|
      ensures a[i] == b[i]
    {
      assert a[i] == Hop(ToTarget(copy(order[i]))) && b[i] == Hop(ToTarget(order[i]));
    }
  }

  /** The embeddings lane as loaded: the copies, in the order of the rows they copy. */
  lemma LoadedCopies(entries: seq<EntryRow>, providers: Providers, freshId: EntryRow -> nat, chainId: nat)
    requires UniqueRows(entries) && LaneLess(entries)
    ensures ForRoute(LoadRoutingChain(Upgraded(entries, providers, freshId), chainId), Embeddings)
            == Map(Map(CapableOrder(entries, providers, chainId),
                       (e: EntryRow) => CopyOf(CapableRows(entries, providers), freshId, e)), ToTarget)
  {
    var after := Upgraded(entries, providers, freshId);
    var copies := LaneRows(after, chainId, Embeddings);
    LoadedLaneSorted(after, chainId, Embeddings);
    CopiesAscend(entries, providers, freshId, chainId);
    LaneMembers(after, chainId, Embeddings);
    UpgradedEmbeddingsLane(entries, providers, freshId, chainId);
    hide Filter, Sort, Upgraded, ForRoute, LaneRows, CapableRows;
    assert Sorted(copies, LaneOrder);
    SortOfSorted(copies, LaneOrder);
  }

  /** The nodes an embeddings request tries once chains have lanes. */
  function LaneAttempts(entries: seq<EntryRow>, chainId: nat, states: States, pref: Option<Id>): seq<RoutingTarget> {
    EvaluateChain(ForRoute(LoadRoutingChain(entries, chainId), Embeddings), states, pref)
  }

  /** The nodes an embeddings request tried before: the whole chain, evaluated, less the
      accounts that cannot embed. */
  function ChainAttempts(entries: seq<EntryRow>, providers: Providers, chainId: nat, states: States,
                         pref: Option<Id>): seq<RoutingTarget> {
    Keeping(EvaluateChain(LoadRoutingChain(entries, chainId), states, pref), CapableAccount(providers))
  }

  /** For the upgraded table as written: the embeddings lane evaluates to the old chain's
      capable nodes. */
  lemma UpgradedLaneEvaluates(entries: seq<EntryRow>, providers: Providers, freshId: EntryRow -> nat, chainId: nat,
                              states: States, pref: Option<Id>)
    requires UniqueRows(entries) && LaneLess(entries)
    ensures Map(LaneAttempts(Upgraded(entries, providers, freshId), chainId, states, pref), Hop)
            == Map(ChainAttempts(entries, providers, chainId, states, pref), Hop)
  {
    var lane := ForRoute(LoadRoutingChain(Upgraded(entries, providers, freshId), chainId), Embeddings);
    var copy := (e: EntryRow) => CopyOf(CapableRows(entries, providers), freshId, e);
    var order := CapableOrder(entries, providers, chainId);
    var keep := CapableAccount(providers);
    LoadedCopies(entries, providers, freshId, chainId);
    FilterMap(OrderedEntries(entries, chainId), ToTarget, (e: EntryRow) => Capable(providers, e.accountId),
              (t: RoutingTarget) => keep(t.accountId));
    hide Filter, Sort, Upgraded, EvaluateChain, ForRoute, CapableRows, AvailableEntries;
    var was := LoadRoutingChain(entries, chainId);
    HopOfCopy(order, copy);
    hide Map;
    assert Keeping(was, keep) == Map(order, ToTarget);
    EvaluateMap(lane, states, pref, Hop);
    EvaluateMap(Keeping(was, keep), states, pref, Hop);
    EvaluateFilter(was, states, pref, keep);
  }

  // --- The upgraded table is well formed ---------------------------------------

  /** Fresh primary keys: distinct for distinct rows, and none in use. */
  ghost predicate Fresh(entries: seq<EntryRow>, freshId: EntryRow -> nat) {
    && (forall a, b | a in entries && b in entries && a != b :: freshId(a) != freshId(b))
    && (forall a, b | a in entries && b in entries :: freshId(a) != b.id)
  }

  /** Two different selected rows of a chain get different positions. */
  lemma CopiesApart(entries: seq<EntryRow>, providers: Providers, a: EntryRow, b: EntryRow)
    requires UniqueRows(entries) && LaneLess(entries)
    requires a in CapableRows(entries, providers) && b in CapableRows(entries, providers) && a != b
    requires a.chainId == b.chainId
    ensures var capable := CapableRows(entries, providers);
            RowNumber(capable, a, ByPosition) != RowNumber(capable, b, ByPosition)
  {
    var order := CapableOrder(entries, providers, a.chainId);
    OrderedMembers(entries, a.chainId);
    assert a in order && b in order;
    hide Filter, CapableOrder, CapableRows, RowNumber, UniqueRows, LaneLess;
    var i :| 0 <= i < |order| && order[i] == a;
    var j :| 0 <= j < |order| && order[j] == b;
    CopyPosition(entries, providers, a.chainId, i);
    CopyPosition(entries, providers, a.chainId, j);
  }

  /** The selected rows are capable rows, each once. */
  lemma SelectedOnce(entries: seq<EntryRow>, providers: Providers)
    requires UniqueRows(entries)
    ensures var selected := Sort(CapableRows(entries, providers), ChainOrder);
            && (forall e | e in selected :: e in entries && e in CapableRows(entries, providers))
            && (forall i, j | 0 <= i < j < |selected| :: selected[i] != selected[j])
  {
    var capable := CapableRows(entries, providers);
    var selected := Sort(capable, ChainOrder);
    SortMembers(capable, ChainOrder);
    forall i, j | 0 <= i < j < |selected|
      ensures selected[i] != selected[j]
    {
      if selected[i] == selected[j] {
        CountTwice(selected, i, j);
        SortCounts(capable, ChainOrder, selected[i]);
        CountFilter(entries, (e: EntryRow) => Capable(providers, e.accountId), selected[i]);
        UniqueCount(entries, selected[i]);
      }
    }
  }

  /** The upgrade keeps the primary key and establishes (chain, lane, position) as unique. */
  lemma UpgradedUnique(entries: seq<EntryRow>, providers: Providers, freshId: EntryRow -> nat)
    requires UniqueRows(entries) && LaneLess(entries) && Fresh(entries, freshId)
    ensures UniqueRows(Upgraded(entries, providers, freshId))
  {
    var capable := CapableRows(entries, providers);
    var selected := Sort(capable, ChainOrder);
    var copies := Map(selected, (e: EntryRow) => CopyOf(capable, freshId, e));
    SelectedOnce(entries, providers);
    hide Filter, Sort, RowNumber, CapableRows;
    forall i, j | 0 <= i < j < |copies|
      ensures copies[i].id != copies[j].id
      ensures copies[i].chainId == copies[j].chainId ==> copies[i].position != copies[j].position
    {
      var a, b := selected[i], selected[j];
      assert a in selected && b in selected;
      if a.chainId == b.chainId {
        CopiesApart(entries, providers, a, b);
      }
    }
    forall i, j | 0 <= i < |entries| && 0 <= j < |copies|
      ensures entries[i].id != copies[j].id && entries[i].routeKind != copies[j].routeKind
    {
      assert selected[j] in selected && entries[i] in entries;
    }
  }

  /** The upgrade preserves routing. Whatever arrangement the table holds its rows in, the
      chat lane is the old chain, and for every set of credential states and every session
      preference the embeddings lane is attempted exactly as the old chain's capable nodes
      were: same accounts, same policies, same order, the request's own model. */
  lemma UpgradePreservesRouting(stored: seq<EntryRow>, entries: seq<EntryRow>, providers: Providers,
                                freshId: EntryRow -> nat, chainId: nat, states: States, pref: Option<Id>)
    requires UniqueRows(entries) && LaneLess(entries) && Fresh(entries, freshId)
    requires Permutation(stored, Upgraded(entries, providers, freshId))
    ensures ForRoute(LoadRoutingChain(stored, chainId), Chat) == LoadRoutingChain(entries, chainId)
    ensures Map(LaneAttempts(stored, chainId, states, pref), Hop)
            == Map(ChainAttempts(entries, providers, chainId, states, pref), Hop)
    ensures forall t | t in ForRoute(LoadRoutingChain(stored, chainId), Embeddings) :: t.modelId.None?
    ensures UniqueRows(Upgraded(entries, providers, freshId))
  {
    hide Filter, Sort, EvaluateChain, CopyOf;
    var upgraded := Upgraded(entries, providers, freshId);
    UpgradedUnique(entries, providers, freshId);
    ArrangementIrrelevant(stored, upgraded, chainId);
    UpgradedChatLane(entries, providers, freshId, chainId);
    LoadedLaneSorted(upgraded, chainId, Chat);
    UpgradedLaneEvaluates(entries, providers, freshId, chainId, states, pref);
    EmbeddingsForwardModel(entries, providers, freshId, chainId);
    assert LoadRoutingChain(stored, chainId) == LoadRoutingChain(upgraded, chainId);
  }

  lemma EmbeddingsForwardModel(entries: seq<EntryRow>, providers: Providers, freshId: EntryRow -> nat, chainId: nat)
    requires UniqueRows(entries) && LaneLess(entries)
    ensures var upgraded := Upgraded(entries, providers, freshId);
            forall t | t in ForRoute(LoadRoutingChain(upgraded, chainId), Embeddings) :: t.modelId.None?
  {
    hide Filter, Sort, Upgraded, ForRoute, LoadRoutingChain, RowNumber, CapableOrder, UniqueRows, LaneLess;
    LoadedCopies(entries, providers, freshId, chainId);
    var order := CapableOrder(entries, providers, chainId);
    var lane := ForRoute(LoadRoutingChain(Upgraded(entries, providers, freshId), chainId), Embeddings);
    forall i | 0 <= i < |lane|
      ensures lane[i].modelId.None?
    {
      assert lane[i] == ToTarget(CopyOf(CapableRows(entries, providers), freshId, order[i]));
    }
  }

  // --- Downgrade -------------------------------------------------------------

  /** In a chain's reading order, exactly the earlier rows rank before a row. */
  lemma EarlierRanksBefore(s: seq<EntryRow>, i: nat, j: nat)
    requires StrictlySorted(s, LaneOrder) && i < |s| && j < |s|
    ensures Flatter(s[j], s[i]) == (j < i)
  {
    if j < i {
      assert LaneOrder(s[j], s[i]) && !LaneOrder(s[i], s[j]);
    } else if i < j {
      assert LaneOrder(s[i], s[j]) && !LaneOrder(s[j], s[i]);
    }
  }

  /** A row's new position is its index in the chain's reading order. */
  lemma FlatPosition(entries: seq<EntryRow>, chainId: nat, i: nat)
    requires UniqueRows(entries) && i < |OrderedEntries(entries, chainId)|
    ensures RowNumber(entries, OrderedEntries(entries, chainId)[i], Flatter) == i
  {
    var s := OrderedEntries(entries, chainId);
    OrderedStrictly(entries, chainId);
    OrderedMembers(entries, chainId);
    LaneOrderTotal();
    FilterSort(entries, LaneOrder, (e: EntryRow) => e.chainId == chainId);
    hide Filter, Sort, RowNumber, OrderedEntries;
    assert s[i] in s;
    RowNumberAt(entries, s[i], LaneOrder, Flatter);
    forall j | 0 <= j < |s|
      ensures Flatter(s[j], s[i]) == (j < i)
    {
      EarlierRanksBefore(s, i, j);
    }
    hide Flatter, LaneOrder, UniqueRows;
    RankAt(s, i, Flatter);
  }

  lemma FlatApart(entries: seq<EntryRow>, a: EntryRow, b: EntryRow)
    requires UniqueRows(entries) && a in entries && b in entries && a != b && a.chainId == b.chainId
    ensures RowNumber(entries, a, Flatter) != RowNumber(entries, b, Flatter)
  {
    var s := OrderedEntries(entries, a.chainId);
    OrderedMembers(entries, a.chainId);
    hide Filter, Sort, RowNumber, UniqueRows, OrderedEntries;
    var i :| 0 <= i < |s| && s[i] == a;
    var j :| 0 <= j < |s| && s[j] == b;
    FlatPosition(entries, a.chainId, i);
    FlatPosition(entries, a.chainId, j);
  }

  /** The flattened table meets the old unique constraint on (chain, position). */
  lemma FlattenedUnique(entries: seq<EntryRow>)
    requires UniqueRows(entries)
    ensures UniqueRows(Flattened(entries)) && LaneLess(Flattened(entries))
  {
    hide RowNumber;
    var flat := Flattened(entries);
    forall i, j | 0 <= i < j < |flat|
      ensures flat[i].id != flat[j].id
      ensures flat[i].chainId == flat[j].chainId ==> flat[i].position != flat[j].position
    {
      if entries[i].chainId == entries[j].chainId {
        FlatApart(entries, entries[i], entries[j]);
      }
    }
  }

  lemma SplitCons<T>(head: T, tail: seq<T>, p: T -> bool, q: T -> bool)
    requires p(head) && !q(head) && tail == Filter(tail, p) + Filter(tail, q)
    ensures [head] + tail == Filter([head] + tail, p) + Filter([head] + tail, q)
  {
    FilterCons(head, tail, p);
    FilterCons(head, tail, q);
    hide Filter;
  }

  lemma {:induction false} LanesInTurn(s: seq<EntryRow>)
    requires Sorted(s, LaneOrder)
    ensures s == Filter(s, (e: EntryRow) => e.routeKind == Chat) + Filter(s, (e: EntryRow) => e.routeKind == Embeddings)
  {
    hide Filter;
    var chat, embeddings := (e: EntryRow) => e.routeKind == Chat, (e: EntryRow) => e.routeKind == Embeddings;
    if s == [] || s[0].routeKind == Embeddings {
      forall e | e in s
        ensures e.routeKind == Embeddings
      {
        var i :| 0 <= i < |s| && s[i] == e;
        assert i > 0 ==> LaneOrder(s[0], s[i]);
      }
      FilterAll(s, chat);
      FilterAll(s, embeddings);
    } else {
      LanesInTurn(s[1..]);
      SplitCons(s[0], s[1..], chat, embeddings);
      assert s == [s[0]] + s[1..];
    }
  }

  lemma FlattenedOrder(entries: seq<EntryRow>, chainId: nat)
    requires UniqueRows(entries)
    ensures var s := OrderedEntries(entries, chainId);
            var flat := OrderedEntries(Flattened(entries), chainId);
            flat == Map(s, (e: EntryRow) => FlatRow(entries, e)) && Contiguous(flat)
  {
    hide RowNumber;
    var s := OrderedEntries(entries, chainId);
    var flat := (e: EntryRow) => FlatRow(entries, e);
    var result := Map(s, flat);
    forall i | 0 <= i < |s|
      ensures result[i].position == i
    {
      FlatPosition(entries, chainId, i);
    }
    var mine := (e: EntryRow) => e.chainId == chainId;
    FilterMap(entries, flat, mine, mine);
    assert OfChain(Flattened(entries), chainId) == Map(OfChain(entries, chainId), flat);
    forall x
      ensures Count(OfChain(Flattened(entries), chainId), x) == Count(result, x)
    {
      CountMap(OfChain(entries, chainId), LaneOrder, flat, x);
    }
    LaneOrderTotal();
    SortIs(OfChain(Flattened(entries), chainId), result, LaneOrder);
  }

  /** The downgrade loses no row and no order. Whatever arrangement the table holds its rows
      in, a chain then reads as its chat rows followed by its embeddings rows, each lane in
      its own order, with nothing changed but the position, which runs 0, 1, ... */
  lemma DowngradeKeepsOrder(stored: seq<EntryRow>, entries: seq<EntryRow>, chainId: nat)
    requires UniqueRows(entries) && Permutation(stored, Flattened(entries))
    ensures UniqueRows(Flattened(entries)) && LaneLess(Flattened(entries))
    ensures var chat := Sort(LaneRows(entries, chainId, Chat), LaneOrder);
            var embeddings := Sort(LaneRows(entries, chainId, Embeddings), LaneOrder);
            var flat := OrderedEntries(stored, chainId);
            && |flat| == |chat + embeddings|
            && forall i | 0 <= i < |flat| :: flat[i] == (chat + embeddings)[i].(position := i, routeKind := Chat)
  {
    FlattenedUnique(entries);
    ArrangementIrrelevant(stored, Flattened(entries), chainId);
    FlattenedOrder(entries, chainId);
    LaneOrderTotal();
    SortSorted(OfChain(entries, chainId), LaneOrder);
    LanesInTurn(OrderedEntries(entries, chainId));
    FilterSort(OfChain(entries, chainId), LaneOrder, (e: EntryRow) => e.routeKind == Chat);
    FilterSort(OfChain(entries, chainId), LaneOrder, (e: EntryRow) => e.routeKind == Embeddings);
    LaneOf(entries, chainId, Chat);
    LaneOf(entries, chainId, Embeddings);
    hide Filter, Sort, RowNumber;
  }

  lemma UpgradedLanesRead(entries: seq<EntryRow>, providers: Providers, freshId: EntryRow -> nat, chainId: nat)
    requires UniqueRows(entries) && LaneLess(entries)
    ensures var upgraded := Upgraded(entries, providers, freshId);
            && Sort(LaneRows(upgraded, chainId, Chat), LaneOrder) == OrderedEntries(entries, chainId)
            && Sort(LaneRows(upgraded, chainId, Embeddings), LaneOrder)
               == Map(CapableOrder(entries, providers, chainId),
                      (e: EntryRow) => CopyOf(CapableRows(entries, providers), freshId, e))
  {
    var upgraded := Upgraded(entries, providers, freshId);
    var copies := LaneRows(upgraded, chainId, Embeddings);
    UpgradedChatLane(entries, providers, freshId, chainId);
    UpgradedEmbeddingsLane(entries, providers, freshId, chainId);
    CopiesAscend(entries, providers, freshId, chainId);
    LaneMembers(upgraded, chainId, Embeddings);
    hide Filter, Sort, Upgraded, LaneRows, CapableRows, CopyOf;
    assert Sorted(copies, LaneOrder);
    SortOfSorted(copies, LaneOrder);
  }

  /** Where a chain's positions ran 0, 1, ... before the upgrade, as every chain the service
      wrote does, a downgrade gives its rows back unchanged, followed by the copies in order. */
  lemma DowngradeUndoesUpgrade(entries: seq<EntryRow>, providers: Providers, freshId: EntryRow -> nat, chainId: nat)
    requires UniqueRows(entries) && LaneLess(entries) && Fresh(entries, freshId)
    requires Contiguous(OrderedEntries(entries, chainId))
    ensures var before := OrderedEntries(entries, chainId);
            var copied := CapableOrder(entries, providers, chainId);
            var after := OrderedEntries(Flattened(Upgraded(entries, providers, freshId)), chainId);
            && |after| == |before| + |copied| && after[..|before|] == before
            && forall i | 0 <= i < |copied| ::
                 && after[|before| + i].accountId == copied[i].accountId
                 && after[|before| + i].policy == copied[i].policy
                 && after[|before| + i].position == |before| + i
  {
    hide Filter, Sort, Upgraded, Flattened, LaneRows, CapableRows, RowNumber, UniqueRows, Fresh, OrderedEntries,
      CapableOrder;
    var upgraded := Upgraded(entries, providers, freshId);
    var before := OrderedEntries(entries, chainId);
    UpgradedUnique(entries, providers, freshId);
    DowngradeKeepsOrder(Flattened(upgraded), upgraded, chainId);
    UpgradedLanesRead(entries, providers, freshId, chainId);
    OrderedMembers(entries, chainId);
    var after := OrderedEntries(Flattened(upgraded), chainId);
    forall i | 0 <= i < |before|
      ensures after[i] == before[i]
    {
      assert before[i] in before;
    }
  }
}
