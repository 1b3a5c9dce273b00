/** The chain and chain-entry tables: lane-scoped positions under create, upsert, edit and
    delete, and what loading a chain gives back. */
module ChainTables {
  import opened Prelude
  import opened Metering
  import opened Routing
  import opened Ordering

  datatype ChainRow = ChainRow(id: nat, name: string, clientKey: Option<string>, modelSelector: Option<string>)

  /** A row of the entry table; a NULL policy means every error falls back. */
  datatype EntryRow = EntryRow(id: nat, chainId: nat, position: nat, accountId: Id, modelId: Option<string>,
                               policy: Option<FallbackPolicy>, routeKind: RouteKind)

  datatype EntryInput =
    | Bare(accountId: Id)
    | Node(accountId: Id, modelId: Option<string>, policy: FallbackPolicy, routeKind: RouteKind)

  /** A chain node as its caller means it. */
  datatype NodeSpec = NodeSpec(accountId: Id, modelId: Option<string>, policy: FallbackPolicy, routeKind: RouteKind)

  function NormalizeEntry(e: EntryInput): NodeSpec {
    match e
    case Bare(account) => NodeSpec(account, None, AnyError, Chat)
    case Node(account, modelId, policy, kind) =>
      var stripped := if modelId.Some? then Strip(modelId.value) else [];
      NodeSpec(account, if stripped == [] then None else Some(stripped), policy, kind)
  }

  function NormalizeEntries(inputs: seq<EntryInput>): seq<NodeSpec> {
    Map(inputs, NormalizeEntry)
  }

  function LaneSpecs(specs: seq<NodeSpec>, kind: RouteKind): seq<NodeSpec> {
    Filter(specs, (s: NodeSpec) => s.routeKind == kind)
  }

  function RowFor(s: NodeSpec, chainId: nat, position: nat, id: nat): EntryRow {
    EntryRow(id, chainId, position, s.accountId, s.modelId, Some(s.policy), s.routeKind)
  }

  /** The rows a chain's nodes are stored as: positions count up in each lane. */
  function RowsFor(specs: seq<NodeSpec>, chainId: nat, firstId: nat): seq<EntryRow> {
    if specs == [] then []
    else
      var earlier, last := specs[..|specs| - 1], specs[|specs| - 1];
      RowsFor(earlier, chainId, firstId)
        + [RowFor(last, chainId, |LaneSpecs(earlier, last.routeKind)|, firstId + |earlier|)]
  }

  function OfChain(entries: seq<EntryRow>, chainId: nat): seq<EntryRow> {
    Filter(entries, (e: EntryRow) => e.chainId == chainId)
  }

  /** The rows of all other chains. */
  function OtherRows(entries: seq<EntryRow>, chainId: nat): seq<EntryRow> {
    Filter(entries, (e: EntryRow) => e.chainId != chainId)
  }

  function LaneRows(entries: seq<EntryRow>, chainId: nat, kind: RouteKind): seq<EntryRow> {
    Filter(entries, (e: EntryRow) => e.chainId == chainId && e.routeKind == kind)
  }

  /** A lane's positions are 0, 1, ... without gap or repeat. */
  predicate Contiguous(rows: seq<EntryRow>) {
    forall i | 0 <= i < |rows| :: rows[i].position == i
  }

  function SpecOf(e: EntryRow): NodeSpec {
    NodeSpec(e.accountId, e.modelId, if e.policy.Some? then e.policy.value else AnyError, e.routeKind)
  }

  /** The nodes stored for one lane of a chain. */
  function StoredLane(entries: seq<EntryRow>, chainId: nat, kind: RouteKind): seq<NodeSpec> {
    Map(LaneRows(entries, chainId, kind), SpecOf)
  }

  // --- Reading a chain back --------------------------------------------------

  function LaneRank(kind: RouteKind): nat {
    if kind.Chat? then 0 else 1
  }

  predicate LaneOrder(a: EntryRow, b: EntryRow) {
    LaneRank(a.routeKind) < LaneRank(b.routeKind) || (a.routeKind == b.routeKind && a.position <= b.position)
  }

  function OrderedEntries(entries: seq<EntryRow>, chainId: nat): seq<EntryRow> {
    Sort(OfChain(entries, chainId), LaneOrder)
  }

  function ToTarget(e: EntryRow): RoutingTarget {
    RoutingTarget(e.accountId, e.modelId, if e.policy.Some? then e.policy.value else AnyError, e.routeKind,
                  Some(e.id), Some(e.position))
  }

  function LoadRoutingChain(entries: seq<EntryRow>, chainId: nat): seq<RoutingTarget> {
    Map(OrderedEntries(entries, chainId), ToTarget)
  }

  lemma LaneOrderTotal()
    ensures TotalPreorder(LaneOrder)
  {
  }

  lemma LaneMembers(entries: seq<EntryRow>, chainId: nat, kind: RouteKind)
    ensures var rows := LaneRows(entries, chainId, kind);
            forall i | 0 <= i < |rows| :: rows[i].chainId == chainId && rows[i].routeKind == kind
  {
    var rows := LaneRows(entries, chainId, kind);
    forall i | 0 <= i < |rows|
      ensures rows[i].chainId == chainId && rows[i].routeKind == kind
    {
      assert rows[i] in rows;
    }
  }

  lemma LanesSorted(entries: seq<EntryRow>, chainId: nat)
    requires Contiguous(LaneRows(entries, chainId, Chat)) && Contiguous(LaneRows(entries, chainId, Embeddings))
    ensures StrictlySorted(LaneRows(entries, chainId, Chat) + LaneRows(entries, chainId, Embeddings), LaneOrder)
  {
    var a, b := LaneRows(entries, chainId, Chat), LaneRows(entries, chainId, Embeddings);
    LaneMembers(entries, chainId, Chat);
    LaneMembers(entries, chainId, Embeddings);
    hide Filter, LaneRows;
  }

  lemma LanesCount(stored: seq<EntryRow>, entries: seq<EntryRow>, chainId: nat)
    requires Permutation(stored, entries)
    ensures Permutation(OfChain(stored, chainId),
                        LaneRows(entries, chainId, Chat) + LaneRows(entries, chainId, Embeddings))
  {
    forall x
      ensures Count(OfChain(stored, chainId), x)
              == Count(LaneRows(entries, chainId, Chat) + LaneRows(entries, chainId, Embeddings), x)
    {
      assert Count(stored, x) == Count(entries, x);
      CountFilter(stored, (e: EntryRow) => e.chainId == chainId, x);
      CountFilter(entries, (e: EntryRow) => e.chainId == chainId && e.routeKind == Chat, x);
      CountFilter(entries, (e: EntryRow) => e.chainId == chainId && e.routeKind == Embeddings, x);
      CountAppend(LaneRows(entries, chainId, Chat), LaneRows(entries, chainId, Embeddings), x);
    }
  }

  /** A chain reads as its chat lane and then its embeddings lane, each by position, in
      whatever arrangement the table holds its rows. */
  lemma OrderedIsLanes(stored: seq<EntryRow>, entries: seq<EntryRow>, chainId: nat)
    requires Permutation(stored, entries)
    requires Contiguous(LaneRows(entries, chainId, Chat)) && Contiguous(LaneRows(entries, chainId, Embeddings))
    ensures OrderedEntries(stored, chainId) == LaneRows(entries, chainId, Chat) + LaneRows(entries, chainId, Embeddings)
  {
    hide Filter, LaneOrder;
    LaneOrderTotal();
    LanesSorted(entries, chainId);
    LanesCount(stored, entries, chainId);
    SortIs(OfChain(stored, chainId), LaneRows(entries, chainId, Chat) + LaneRows(entries, chainId, Embeddings),
           LaneOrder);
  }

  lemma LaneOfLanes(entries: seq<EntryRow>, chainId: nat, kind: RouteKind)
    ensures Filter(LaneRows(entries, chainId, Chat) + LaneRows(entries, chainId, Embeddings),
                   (e: EntryRow) => e.routeKind == kind)
            == LaneRows(entries, chainId, kind)
  {
    var a, b := LaneRows(entries, chainId, Chat), LaneRows(entries, chainId, Embeddings);
    FilterAppend(a, b, (e: EntryRow) => e.routeKind == kind);
    FilterAll(a, (e: EntryRow) => e.routeKind == kind);
    FilterAll(b, (e: EntryRow) => e.routeKind == kind);
  }

  /** Loading a chain and taking one lane gives that lane's stored rows in position order,
      whatever arrangement the table holds them in. */
  lemma LoadedLane(stored: seq<EntryRow>, entries: seq<EntryRow>, chainId: nat, kind: RouteKind)
    requires Permutation(stored, entries)
    requires Contiguous(LaneRows(entries, chainId, Chat)) && Contiguous(LaneRows(entries, chainId, Embeddings))
    ensures ForRoute(LoadRoutingChain(stored, chainId), kind) == Map(LaneRows(entries, chainId, kind), ToTarget)
    ensures var lane, rows := ForRoute(LoadRoutingChain(stored, chainId), kind), LaneRows(entries, chainId, kind);
            |lane| == |rows|
            && forall i | 0 <= i < |lane| ::
                 lane[i].nodeId == Some(rows[i].id) && lane[i].position == Some(rows[i].position)
  {
    hide Filter;
    OrderedIsLanes(stored, entries, chainId);
    FilterMap(OrderedEntries(stored, chainId), ToTarget,
              (e: EntryRow) => e.routeKind == kind, (t: RoutingTarget) => t.routeKind == kind);
    LaneOfLanes(entries, chainId, kind);
  }

  // --- Choosing a chain ----------------------------------------------------------

  predicate HasLane(entries: seq<EntryRow>, chainId: nat, kind: RouteKind) {
    LaneRows(entries, chainId, kind) != []
  }

  function Eligible(chains: seq<ChainRow>, entries: seq<EntryRow>, kind: RouteKind): seq<ChainRow> {
    Filter(chains, (c: ChainRow) => HasLane(entries, c.id, kind))
  }

  /** The pinned chain if there is one; else, of the chains with this lane in creation order,
      the first whose selector is the model, or the first without a selector. */
  function SelectChain(chains: seq<ChainRow>, entries: seq<EntryRow>, model: string, kind: RouteKind,
                       pinned: Option<nat>): Option<nat> {
    if pinned.Some? then (if HasChain(chains, pinned.value) then pinned else None)
    else
      var eligible := Eligible(chains, entries, kind);
      var named := IndexWhere(eligible, (c: ChainRow) => c.modelSelector == Some(model));
      var open := IndexWhere(eligible, (c: ChainRow) => c.modelSelector == None);
      if named < |eligible| then Some(eligible[named].id)
      else if open < |eligible| then Some(eligible[open].id)
      else None
  }

  /** Some row of the table is a node of the chain for this kind of request. */
  predicate Offers(entries: seq<EntryRow>, chainId: nat, kind: RouteKind) {
    exists e | e in entries :: e.chainId == chainId && e.routeKind == kind
  }

  lemma LaneOffered(entries: seq<EntryRow>, chainId: nat, kind: RouteKind)
    ensures HasLane(entries, chainId, kind) <==> Offers(entries, chainId, kind)
  {
    if HasLane(entries, chainId, kind) {
      var e := LaneRows(entries, chainId, kind)[0];
      assert e in entries && e.chainId == chainId && e.routeKind == kind;
    }
  }

  /** The chain has the lane, and its selector is the model, or it has no selector and no
      chain with the lane names the model. */
  ghost predicate Suits(chains: seq<ChainRow>, entries: seq<EntryRow>, model: string, kind: RouteKind, c: ChainRow) {
    && Offers(entries, c.id, kind)
    && (c.modelSelector == Some(model)
        || (c.modelSelector == None
            && forall d | d in chains && Offers(entries, d.id, kind) :: d.modelSelector != Some(model)))
  }

  ghost predicate FirstSuiting(chains: seq<ChainRow>, entries: seq<EntryRow>, model: string, kind: RouteKind, m: nat) {
    && m < |chains| && Suits(chains, entries, model, kind, chains[m])
    && forall j | 0 <= j < m :: !Suits(chains, entries, model, kind, chains[j])
  }

  lemma FirstNamed(chains: seq<ChainRow>, entries: seq<EntryRow>, model: string, kind: RouteKind, m: nat)
    requires m < |chains| && Offers(entries, chains[m].id, kind) && chains[m].modelSelector == Some(model)
    requires forall j | 0 <= j < m :: !(Offers(entries, chains[j].id, kind) && chains[j].modelSelector == Some(model))
    ensures FirstSuiting(chains, entries, model, kind, m)
  {
    hide Offers;
    assert chains[m] in chains;
  }

  lemma FirstOpen(chains: seq<ChainRow>, entries: seq<EntryRow>, model: string, kind: RouteKind, m: nat)
    requires m < |chains| && Offers(entries, chains[m].id, kind) && chains[m].modelSelector == None
    requires forall j | 0 <= j < m :: !(Offers(entries, chains[j].id, kind) && chains[j].modelSelector == None)
    requires forall d | d in chains && Offers(entries, d.id, kind) :: d.modelSelector != Some(model)
    ensures FirstSuiting(chains, entries, model, kind, m)
  {
    hide Offers;
    forall j | 0 <= j < m
      ensures !Suits(chains, entries, model, kind, chains[j])
    {
      assert chains[j] in chains;
    }
  }

  lemma EligibleRows(chains: seq<ChainRow>, entries: seq<EntryRow>, kind: RouteKind)
    ensures forall c :: c in Eligible(chains, entries, kind) <==> c in chains && Offers(entries, c.id, kind)
  {
    hide HasLane, Offers;
    forall c: ChainRow
      ensures HasLane(entries, c.id, kind) <==> Offers(entries, c.id, kind)
    {
      LaneOffered(entries, c.id, kind);
    }
  }

  lemma MemberChain(chains: seq<ChainRow>, c: ChainRow)
    requires c in chains
    ensures HasChain(chains, c.id)
  {
    var m :| 0 <= m < |chains| && chains[m] == c;
    HasChainByIndex(chains, m);
  }

  /** The eligible chain that names the model is the first that does. */
  lemma NamedChain(chains: seq<ChainRow>, entries: seq<EntryRow>, model: string, kind: RouteKind) returns (m: nat)
    requires var eligible := Eligible(chains, entries, kind);
             IndexWhere(eligible, (c: ChainRow) => c.modelSelector == Some(model)) < |eligible|
    ensures FirstSuiting(chains, entries, model, kind, m) && HasChain(chains, chains[m].id)
    ensures var eligible := Eligible(chains, entries, kind);
            chains[m] == eligible[IndexWhere(eligible, (c: ChainRow) => c.modelSelector == Some(model))]
  {
    hide HasChain, HasLane, Offers, IndexWhere, FirstSuiting, Filter;
    m := FirstFiltered(chains, (c: ChainRow) => HasLane(entries, c.id, kind),
                       (c: ChainRow) => c.modelSelector == Some(model));
    forall j | 0 <= j < |chains|
      ensures HasLane(entries, chains[j].id, kind) <==> Offers(entries, chains[j].id, kind)
    {
      LaneOffered(entries, chains[j].id, kind);
    }
    MemberChain(chains, chains[m]);
    FirstNamed(chains, entries, model, kind, m);
  }

  /** When none names it, the eligible chain without selector is the first such. */
  lemma OpenChain(chains: seq<ChainRow>, entries: seq<EntryRow>, model: string, kind: RouteKind) returns (m: nat)
    requires var eligible := Eligible(chains, entries, kind);
             && IndexWhere(eligible, (c: ChainRow) => c.modelSelector == None) < |eligible|
             && forall c | c in eligible :: c.modelSelector != Some(model)
    ensures FirstSuiting(chains, entries, model, kind, m) && HasChain(chains, chains[m].id)
    ensures var eligible := Eligible(chains, entries, kind);
            chains[m] == eligible[IndexWhere(eligible, (c: ChainRow) => c.modelSelector == None)]
  {
    EligibleRows(chains, entries, kind);
    hide HasChain, HasLane, Offers, IndexWhere, FirstSuiting, Filter;
    m := FirstFiltered(chains, (c: ChainRow) => HasLane(entries, c.id, kind),
                       (c: ChainRow) => c.modelSelector == None);
    forall j | 0 <= j < |chains|
      ensures HasLane(entries, chains[j].id, kind) <==> Offers(entries, chains[j].id, kind)
    {
      LaneOffered(entries, chains[j].id, kind);
    }
    MemberChain(chains, chains[m]);
    FirstOpen(chains, entries, model, kind, m);
  }

  /** A chosen chain exists. Unpinned, it is the first chain that suits the request: it has the
      lane and its selector is the model, or it has no selector and no chain with the lane
      names the model. None is chosen only when no chain with the lane names the model or is
      without selector. */
  lemma ChosenChain(chains: seq<ChainRow>, entries: seq<EntryRow>, model: string, kind: RouteKind, pinned: Option<nat>)
    ensures var chosen := SelectChain(chains, entries, model, kind, pinned);
            && (chosen.Some? ==> HasChain(chains, chosen.value))
            && (pinned.Some? && chosen.Some? ==> chosen == pinned)
            && (pinned.None? && chosen.Some? ==>
                  exists m: nat :: FirstSuiting(chains, entries, model, kind, m) && chains[m].id == chosen.value)
            && (pinned.None? && chosen.None? ==> forall d | d in chains && Offers(entries, d.id, kind) ::
                  d.modelSelector != Some(model) && d.modelSelector != None)
  {
    hide HasChain, Eligible, Offers, FirstSuiting, IndexWhere;
    if pinned.None? {
      EligibleRows(chains, entries, kind);
      var eligible := Eligible(chains, entries, kind);
      if IndexWhere(eligible, (c: ChainRow) => c.modelSelector == Some(model)) < |eligible| {
        var m := NamedChain(chains, entries, model, kind);
      } else if IndexWhere(eligible, (c: ChainRow) => c.modelSelector == None) < |eligible| {
        var m := OpenChain(chains, entries, model, kind);
      }
    }
  }

  // --- Storing a chain -------------------------------------------------------

  lemma {:induction false} RowsForIsLanes(specs: seq<NodeSpec>, chainId: nat, firstId: nat, kind: RouteKind)
    ensures var rows := RowsFor(specs, chainId, firstId);
            && Contiguous(LaneRows(rows, chainId, kind)) && StoredLane(rows, chainId, kind) == LaneSpecs(specs, kind)
    decreases |specs|
  {
    if specs != [] {
      var n := |specs| - 1;
      var earlier, last := specs[..n], specs[n];
      var before := RowsFor(earlier, chainId, firstId);
      var row := RowFor(last, chainId, |LaneSpecs(earlier, last.routeKind)|, firstId + n);
      RowsForIsLanes(earlier, chainId, firstId, kind);
      LaneSpecsSnoc(specs, n, kind);
      assert specs[..n + 1] == specs;
      LaneSnoc(before, row, chainId, kind);
      assert SpecOf(row) == last && row.chainId == chainId && row.routeKind == last.routeKind;
      assert |LaneRows(before, chainId, kind)| == |StoredLane(before, chainId, kind)|;
      hide LaneRows, StoredLane, LaneSpecs, SpecOf;
    }
  }

  lemma RowsForSnoc(specs: seq<NodeSpec>, i: nat, chainId: nat, firstId: nat)
    requires i < |specs|
    ensures RowsFor(specs[..i + 1], chainId, firstId)
            == RowsFor(specs[..i], chainId, firstId)
               + [RowFor(specs[i], chainId, |LaneSpecs(specs[..i], specs[i].routeKind)|, firstId + i)]
  {
    assert specs[..i + 1][..i] == specs[..i];
  }

  lemma LaneSpecsSnoc(specs: seq<NodeSpec>, i: nat, kind: RouteKind)
    requires i < |specs|
    ensures LaneSpecs(specs[..i + 1], kind)
            == LaneSpecs(specs[..i], kind) + if specs[i].routeKind == kind then [specs[i]] else []
  {
    FilterSnoc(specs, i, (s: NodeSpec) => s.routeKind == kind);
  }

  lemma LaneSnoc(rows: seq<EntryRow>, row: EntryRow, chainId: nat, kind: RouteKind)
    ensures LaneRows(rows + [row], chainId, kind)
            == LaneRows(rows, chainId, kind) + if row.chainId == chainId && row.routeKind == kind then [row] else []
    ensures StoredLane(rows + [row], chainId, kind)
            == StoredLane(rows, chainId, kind)
               + if row.chainId == chainId && row.routeKind == kind then [SpecOf(row)] else []
  {
    var lane := (e: EntryRow) => e.chainId == chainId && e.routeKind == kind;
    FilterAppend(rows, [row], lane);
    FilterOne(row, lane);
    hide Filter, SpecOf;
    MapAppend(LaneRows(rows, chainId, kind), if lane(row) then [row] else [], SpecOf);
  }

  lemma {:induction false} RowsForOneChain(specs: seq<NodeSpec>, chainId: nat, firstId: nat)
    ensures forall e | e in RowsFor(specs, chainId, firstId) :: e.chainId == chainId
    ensures |RowsFor(specs, chainId, firstId)| == |specs|
    decreases |specs|
  {
    if specs != [] {
      RowsForOneChain(specs[..|specs| - 1], chainId, firstId);
    }
  }

  /** The table after a chain's entries were replaced. */
  function Replaced(entries: seq<EntryRow>, chainId: nat, specs: seq<NodeSpec>, firstId: nat): seq<EntryRow> {
    OtherRows(entries, chainId) + RowsFor(specs, chainId, firstId)
  }

  lemma OwnLaneReplaced(entries: seq<EntryRow>, chainId: nat, specs: seq<NodeSpec>, firstId: nat, kind: RouteKind)
    ensures LaneRows(Replaced(entries, chainId, specs, firstId), chainId, kind)
            == LaneRows(RowsFor(specs, chainId, firstId), chainId, kind)
  {
    hide Filter, RowsFor;
    var others := OtherRows(entries, chainId);
    var lane := (e: EntryRow) => e.chainId == chainId && e.routeKind == kind;
    FilterAppend(others, RowsFor(specs, chainId, firstId), lane);
    FilterAll(others, lane);
  }

  lemma OtherLaneKept(entries: seq<EntryRow>, chainId: nat, specs: seq<NodeSpec>, firstId: nat, c: nat, kind: RouteKind)
    requires c != chainId
    ensures LaneRows(Replaced(entries, chainId, specs, firstId), c, kind) == LaneRows(entries, c, kind)
  {
    hide Filter, RowsFor;
    var others := OtherRows(entries, chainId);
    var rows := RowsFor(specs, chainId, firstId);
    var lane := (e: EntryRow) => e.chainId == c && e.routeKind == kind;
    FilterAppend(others, rows, lane);
    FilterTwice(entries, (e: EntryRow) => e.chainId != chainId, lane, lane);
    RowsForOneChain(specs, chainId, firstId);
    FilterAll(rows, lane);
  }

  /** Replacing writes the chain's own lanes and leaves every other chain's lanes alone. */
  lemma ReplacedLanes(entries: seq<EntryRow>, chainId: nat, specs: seq<NodeSpec>, firstId: nat, c: nat, kind: RouteKind)
    ensures var after := Replaced(entries, chainId, specs, firstId);
            && (c == chainId ==>
              Contiguous(LaneRows(after, c, kind)) && StoredLane(after, c, kind) == LaneSpecs(specs, kind))
            && (c != chainId ==> LaneRows(after, c, kind) == LaneRows(entries, c, kind))
  {
    hide LaneRows, Replaced, RowsFor, LaneSpecs;
    if c == chainId {
      OwnLaneReplaced(entries, chainId, specs, firstId, kind);
      RowsForIsLanes(specs, chainId, firstId, kind);
    } else {
      OtherLaneKept(entries, chainId, specs, firstId, c, kind);
    }
  }

  // --- The tables ------------------------------------------------------------

  function FindChain(chains: seq<ChainRow>, id: nat): (i: nat)
    ensures i <= |chains| && (i < |chains| ==> chains[i].id == id)
    ensures forall j | 0 <= j < i :: chains[j].id != id
  {
    IndexWhere(chains, (c: ChainRow) => c.id == id)
  }

  function FindKey(chains: seq<ChainRow>, key: string): (i: nat)
    ensures i <= |chains| && (i < |chains| ==> chains[i].clientKey == Some(key))
    ensures forall j | 0 <= j < i :: chains[j].clientKey != Some(key)
  {
    IndexWhere(chains, (c: ChainRow) => c.clientKey == Some(key))
  }

  predicate HasChain(chains: seq<ChainRow>, id: nat) {
    FindChain(chains, id) < |chains|
  }

  ghost predicate ChainsUnique(chains: seq<ChainRow>) {
    forall i, j | 0 <= i < j < |chains| ::
      chains[i].id != chains[j].id && (chains[i].clientKey.Some? ==> chains[i].clientKey != chains[j].clientKey)
  }

  ghost predicate AllContiguous(entries: seq<EntryRow>) {
    forall c: nat, k: RouteKind :: Contiguous(LaneRows(entries, c, k))
  }

  ghost predicate NoOrphans(chains: seq<ChainRow>, entries: seq<EntryRow>) {
    forall e | e in entries :: HasChain(chains, e.chainId)
  }

  lemma HasChainByIndex(chains: seq<ChainRow>, i: nat)
    requires i < |chains|
    ensures HasChain(chains, chains[i].id)
  {
  }

  lemma ChainsKept(before: seq<ChainRow>, after: seq<ChainRow>, entries: seq<EntryRow>)
    requires NoOrphans(before, entries)
    requires forall i | 0 <= i < |before| :: i < |after| && after[i].id == before[i].id
    ensures NoOrphans(after, entries)
  {
    forall e | e in entries
      ensures HasChain(after, e.chainId)
    {
      HasChainByIndex(after, FindChain(before, e.chainId));
    }
  }

  lemma RowEdited(chains: seq<ChainRow>, entries: seq<EntryRow>, i: nat, row: ChainRow)
    requires i < |chains| && row.id == chains[i].id && row.clientKey == chains[i].clientKey
    requires ChainsUnique(chains) && NoOrphans(chains, entries)
    ensures var after := chains[i := row];
            ChainsUnique(after) && NoOrphans(after, entries) && HasChain(after, row.id)
  {
    var after := chains[i := row];
    ChainsKept(chains, after, entries);
    HasChainByIndex(after, i);
  }

  // --- The book the tables stand for -------------------------------------------

  /** A chain as its operators know it: its row and the input last written for it. */
  datatype Chain = Chain(row: ChainRow, inputs: seq<EntryInput>)

  function Rows(book: seq<Chain>): seq<ChainRow> {
    Map(book, (c: Chain) => c.row)
  }

  datatype Command =
    | Create(name: string, inputs: seq<EntryInput>, selector: Option<string>, key: Option<string>)
    | Upsert(clientKey: string, name: string, inputs: seq<EntryInput>, selector: Option<string>)
    | Edit(id: nat, newName: Option<string>, newSelector: Option<Option<string>>, newInputs: Option<seq<EntryInput>>)
    | Delete(id: nat)

  function WithNewChain(book: seq<Chain>, id: nat, name: string, key: Option<string>, selector: Option<string>,
                        inputs: seq<EntryInput>): seq<Chain> {
    book + [Chain(ChainRow(id, name, key, selector), inputs)]
  }

  /** A row with only what is given changed. */
  function EditedRow(row: ChainRow, newName: Option<string>, newSelector: Option<Option<string>>): ChainRow {
    row.(name := if newName.Some? then newName.value else row.name,
         modelSelector := if newSelector.Some? then newSelector.value else row.modelSelector)
  }

  /** What a command does to the book; `newId` is the id a new chain would get. */
  function After(book: seq<Chain>, c: Command, newId: nat): seq<Chain> {
    match c
    case Create(name, inputs, selector, key) =>
      if key.Some? && FindKey(Rows(book), key.value) < |book| then book
      else WithNewChain(book, newId, name, key, selector, inputs)
    case Upsert(key, name, inputs, selector) =>
      var i := FindKey(Rows(book), key);
      if i < |book| then book[i := Chain(book[i].row.(name := name, modelSelector := selector), inputs)]
      else WithNewChain(book, newId, name, Some(key), selector, inputs)
    case Edit(id, newName, newSelector, newInputs) =>
      var i := FindChain(Rows(book), id);
      if i < |book| then
        book[i := Chain(EditedRow(book[i].row, newName, newSelector),
                        if newInputs.Some? then newInputs.value else book[i].inputs)]
      else book
    case Delete(id) =>
      var i := FindChain(Rows(book), id);
      if i < |book| then book[..i] + book[i + 1..] else book
  }

  /** The book after a run of commands from an empty one. */
  function BookOf(commands: seq<Command>, ids: seq<nat>): seq<Chain>
    requires |ids| == |commands|
  {
    if commands == [] then []
    else
      var n := |commands| - 1;
      After(BookOf(commands[..n], ids[..n]), commands[n], ids[n])
  }

  /** No command is offered the id of a chain that exists. */
  ghost predicate FreshIds(commands: seq<Command>, ids: seq<nat>)
    requires |ids| == |commands|
  {
    forall n: nat | n < |commands| :: FreshAt(commands, ids, n)
  }

  ghost predicate FreshAt(commands: seq<Command>, ids: seq<nat>, n: nat)
    requires n < |ids| == |commands|
  {
    !HasChain(Rows(BookOf(commands[..n], ids[..n])), ids[n])
  }

  /** The entries given for a lane, in input order: a bare account id is a chat node. */
  function GivenFor(inputs: seq<EntryInput>, kind: RouteKind): seq<EntryInput> {
    Filter(inputs, (e: EntryInput) => if e.Bare? then kind == Chat else e.routeKind == kind)
  }

  /** A node is the one that was given: its account and policy, and its model unless that is
      blank; a bare account id asks for any model and lets every error pass. */
  predicate NodeIs(given: EntryInput, account: Id, modelId: Option<string>, policy: FallbackPolicy) {
    match given
    case Bare(a) => account == a && modelId == None && policy == AnyError
    case Node(a, m, p, _) =>
      && account == a && policy == p
      && modelId == if m.None? || Blank(m.value) then None else Some(Strip(m.value))
  }

  /** The chain's rows of the lane are the nodes given for it, in input order. */
  predicate StoresLane(entries: seq<EntryRow>, chainId: nat, inputs: seq<EntryInput>, kind: RouteKind) {
    var rows, given := LaneRows(entries, chainId, kind), GivenFor(inputs, kind);
    && |rows| == |given|
    && forall i | 0 <= i < |rows| ::
         NodeIs(given[i], rows[i].accountId, rows[i].modelId,
                if rows[i].policy.Some? then rows[i].policy.value else AnyError)
  }

  /** The chain stores exactly the nodes given for it, lane by lane, in input order. */
  ghost predicate StoresInput(entries: seq<EntryRow>, chainId: nat, inputs: seq<EntryInput>) {
    forall k: RouteKind :: StoresLane(entries, chainId, inputs, k)
  }

  lemma NormalizedIs(e: EntryInput)
    ensures var s := NormalizeEntry(e);
            NodeIs(e, s.accountId, s.modelId, s.policy) && s.routeKind == if e.Bare? then Chat else e.routeKind
  {
    if e.Node? && e.modelId.Some? {
      var _, _ := StripIs(e.modelId.value);
    }
    hide Strip, Blank;
  }

  /** Rows that spell the normalized input spell the input. */
  lemma StoredAsGiven(entries: seq<EntryRow>, chainId: nat, inputs: seq<EntryInput>, kind: RouteKind)
    requires StoredLane(entries, chainId, kind) == LaneSpecs(NormalizeEntries(inputs), kind)
    ensures StoresLane(entries, chainId, inputs, kind)
  {
    var rows, given := LaneRows(entries, chainId, kind), GivenFor(inputs, kind);
    forall e
      ensures (NormalizeEntry(e).routeKind == kind) == if e.Bare? then kind == Chat else e.routeKind == kind
    {
      NormalizedIs(e);
    }
    FilterMap(inputs, NormalizeEntry, (e: EntryInput) => if e.Bare? then kind == Chat else e.routeKind == kind,
              (s: NodeSpec) => s.routeKind == kind);
    assert StoredLane(entries, chainId, kind) == Map(given, NormalizeEntry);
    hide LaneRows, GivenFor, LaneSpecs, NormalizeEntries, NormalizeEntry, NodeIs;
    forall i | 0 <= i < |rows|
      ensures SpecOf(rows[i]) == NormalizeEntry(given[i])
    {
      assert StoredLane(entries, chainId, kind)[i] == SpecOf(rows[i]);
    }
    forall i | 0 <= i < |rows|
      ensures NodeIs(given[i], rows[i].accountId, rows[i].modelId,
                     if rows[i].policy.Some? then rows[i].policy.value else AnyError)
    {
      NormalizedIs(given[i]);
    }
  }

  /** Every chain but `except` stores its input. */
  ghost predicate Stored(book: seq<Chain>, entries: seq<EntryRow>, except: Option<nat>) {
    forall i: nat | i < |book| && except != Some(book[i].row.id) ::
      StoresInput(entries, book[i].row.id, book[i].inputs)
  }

  lemma StoredKept(before: seq<EntryRow>, after: seq<EntryRow>, chainId: nat, inputs: seq<EntryInput>)
    requires StoresInput(before, chainId, inputs)
    requires forall k: RouteKind :: LaneRows(after, chainId, k) == LaneRows(before, chainId, k)
    ensures StoresInput(after, chainId, inputs)
  {
    forall k: RouteKind
      ensures StoresLane(after, chainId, inputs, k)
    {
      assert StoresLane(before, chainId, inputs, k);
    }
  }

  /** Writing the entries of chain `i`. */
  lemma StoredOne(book: seq<Chain>, before: seq<EntryRow>, after: seq<EntryRow>, i: nat, inputs: seq<EntryInput>)
    requires i < |book| && ChainsUnique(Rows(book))
    requires Stored(book, before, Some(book[i].row.id)) && StoresInput(after, book[i].row.id, inputs)
    requires forall c: nat, k: RouteKind | c != book[i].row.id :: LaneRows(after, c, k) == LaneRows(before, c, k)
    ensures Stored(book[i := Chain(book[i].row, inputs)], after, None)
  {
    hide LaneRows, StoresInput;
    forall j: nat | j < |book| && j != i
      ensures StoresInput(after, book[j].row.id, book[j].inputs)
    {
      assert Rows(book)[j] == book[j].row && Rows(book)[i] == book[i].row;
      StoredKept(before, after, book[j].row.id, book[j].inputs);
    }
  }

  /** Dropping chain `i` and its entries. */
  lemma StoredWithout(book: seq<Chain>, before: seq<EntryRow>, after: seq<EntryRow>, i: nat)
    requires i < |book| && ChainsUnique(Rows(book)) && Stored(book, before, None)
    requires forall c: nat, k: RouteKind | c != book[i].row.id :: LaneRows(after, c, k) == LaneRows(before, c, k)
    ensures Stored(book[..i] + book[i + 1..], after, None)
  {
    hide LaneRows, StoresInput;
    var left := book[..i] + book[i + 1..];
    forall j: nat | j < |left|
      ensures StoresInput(after, left[j].row.id, left[j].inputs)
    {
      var m := if j < i then j else j + 1;
      assert left[j] == book[m] && Rows(book)[m] == book[m].row && Rows(book)[i] == book[i].row;
      StoredKept(before, after, book[m].row.id, book[m].inputs);
    }
  }

  lemma RowsAt(book: seq<Chain>, i: nat, c: Chain)
    requires i < |book|
    ensures Rows(book[i := c]) == Rows(book)[i := c.row]
    ensures Rows(book[..i] + book[i + 1..]) == Rows(book)[..i] + Rows(book)[i + 1..]
  {
  }

  lemma RowsSnoc(book: seq<Chain>, c: Chain)
    ensures Rows(book + [c]) == Rows(book) + [c.row]
  {
  }

  lemma FoundById(chains: seq<ChainRow>, i: nat, id: nat)
    requires i < |chains| && ChainsUnique(chains)
    ensures FindChain(chains, id) == i <==> chains[i].id == id
  {
  }

  lemma UniqueWithRow(chains: seq<ChainRow>, row: ChainRow)
    requires ChainsUnique(chains) && !HasChain(chains, row.id)
    requires row.clientKey.Some? ==> FindKey(chains, row.clientKey.value) == |chains|
    ensures ChainsUnique(chains + [row])
  {
  }

  lemma WithoutUnique(chains: seq<ChainRow>, i: nat)
    requires i < |chains| && ChainsUnique(chains)
    ensures ChainsUnique(chains[..i] + chains[i + 1..])
    ensures forall c | c in chains[..i] + chains[i + 1..] :: c in chains
  {
    var left := chains[..i] + chains[i + 1..];
    forall j, k | 0 <= j < k < |left|
      ensures left[j].id != left[k].id && (left[j].clientKey.Some? ==> left[j].clientKey != left[k].clientKey)
    {
      assert left[j] == chains[if j < i then j else j + 1] && left[k] == chains[if k < i then k else k + 1];
    }
  }

  lemma ReplacedValid(chains: seq<ChainRow>, entries: seq<EntryRow>, chainId: nat, specs: seq<NodeSpec>, firstId: nat)
    requires NoOrphans(chains, entries) && HasChain(chains, chainId) && AllContiguous(entries)
    ensures var after := Replaced(entries, chainId, specs, firstId);
            && NoOrphans(chains, after) && AllContiguous(after)
            && (forall k: RouteKind :: StoredLane(after, chainId, k) == LaneSpecs(specs, k))
            && (forall c: nat, k: RouteKind | c != chainId :: LaneRows(after, c, k) == LaneRows(entries, c, k))
  {
    var after := Replaced(entries, chainId, specs, firstId);
    RowsForOneChain(specs, chainId, firstId);
    forall c: nat, k: RouteKind
      ensures Contiguous(LaneRows(after, c, k))
      ensures c == chainId ==> StoredLane(after, c, k) == LaneSpecs(specs, k)
      ensures c != chainId ==> LaneRows(after, c, k) == LaneRows(entries, c, k)
    {
      ReplacedLanes(entries, chainId, specs, firstId, c, k);
    }
  }

  lemma StillThere(chains: seq<ChainRow>, i: nat, id: nat)
    requires i < |chains| && ChainsUnique(chains) && HasChain(chains, id) && id != chains[i].id
    ensures HasChain(chains[..i] + chains[i + 1..], id)
  {
    var j := FindChain(chains, id);
    HasChainByIndex(chains[..i] + chains[i + 1..], if j < i then j else j - 1);
  }

  lemma NothingReplaces(entries: seq<EntryRow>, id: nat)
    ensures Replaced(entries, id, [], 0) == OtherRows(entries, id)
    ensures OfChain(Replaced(entries, id, [], 0), id) == []
  {
    var kept := OtherRows(entries, id);
    assert RowsFor([], id, 0) == [] && kept + [] == kept;
    hide Filter;
    FilterAll(kept, (e: EntryRow) => e.chainId == id);
  }

  lemma DeletedValid(chains: seq<ChainRow>, entries: seq<EntryRow>, i: nat)
    requires i < |chains| && i == FindChain(chains, chains[i].id)
    requires NoOrphans(chains, entries) && AllContiguous(entries) && ChainsUnique(chains)
    ensures var id := chains[i].id;
            var after := OtherRows(entries, id);
            && NoOrphans(chains[..i] + chains[i + 1..], after) && AllContiguous(after) && OfChain(after, id) == []
            && (forall c: nat, k: RouteKind | c != id :: LaneRows(after, c, k) == LaneRows(entries, c, k))
  {
    hide Filter, Replaced, OfChain, LaneRows, StoredLane, ChainsUnique, HasChain, AllContiguous, RowsFor;
    var id := chains[i].id;
    var after := OtherRows(entries, id);
    NothingReplaces(entries, id);
    HasChainByIndex(chains, i);
    ReplacedValid(chains, entries, id, [], 0);
    forall e | e in after
      ensures HasChain(chains[..i] + chains[i + 1..], e.chainId)
    {
      StillThere(chains, i, e.chainId);
    }
  }

  /** What replacing the entries of a chain leaves. */
  lemma EntriesReplaced(tables: ChainTables, chainId: nat, inputs: seq<EntryInput>, after: seq<EntryRow>)
    requires tables.WellFormed() && Stored(tables.book, tables.entries, Some(chainId))
    requires HasChain(tables.chains, chainId)
    requires after == Replaced(tables.entries, chainId, NormalizeEntries(inputs), tables.nextId)
    ensures var i := FindChain(tables.chains, chainId);
            && i < |tables.chains| == |tables.book|
            && Rows(tables.book[i := Chain(tables.chains[i], inputs)]) == tables.chains
            && Stored(tables.book[i := Chain(tables.chains[i], inputs)], after, None)
    ensures NoOrphans(tables.chains, after) && AllContiguous(after) && StoresInput(after, chainId, inputs)
    ensures forall c: nat, k: RouteKind | c != chainId :: LaneRows(after, c, k) == LaneRows(tables.entries, c, k)
  {
    var chains, book := tables.chains, tables.book;
    ReplacedValid(chains, tables.entries, chainId, NormalizeEntries(inputs), tables.nextId);
    RowsAreBook(book);
    var i := FindChain(chains, chainId);
    forall k: RouteKind
      ensures StoresLane(after, chainId, inputs, k)
    {
      StoredAsGiven(after, chainId, inputs, k);
    }
    StoredOne(book, tables.entries, after, i, inputs);
    RowsAt(book, i, Chain(chains[i], inputs));
    hide LaneRows, StoredLane, LaneSpecs, Stored, Rows, ChainsUnique, NoOrphans, AllContiguous, NormalizeEntries;
  }

  /** What a new row leaves. */
  lemma RowAdded(tables: ChainTables, row: ChainRow)
    requires tables.Valid() && row.id == tables.nextId
    requires row.clientKey.Some? ==> FindKey(tables.chains, row.clientKey.value) == |tables.chains|
    ensures var chains, book := tables.chains + [row], tables.book + [Chain(row, [])];
            && ChainsUnique(chains) && NoOrphans(chains, tables.entries) && Rows(book) == chains
            && Stored(book, tables.entries, Some(row.id))
    ensures !HasChain(tables.chains, row.id) && HasChain(tables.chains + [row], row.id)
    ensures FindChain(tables.chains + [row], row.id) == |tables.chains|
  {
    var chains := tables.chains + [row];
    RowsSnoc(tables.book, Chain(row, []));
    UniqueWithRow(tables.chains, row);
    ChainsKept(tables.chains, chains, tables.entries);
    FoundById(chains, |tables.chains|, row.id);
    hide StoresInput, NoOrphans, ChainsUnique, Rows, AllContiguous;
  }

  /** What deleting chain `i` and its entries leaves. */
  lemma ChainDeleted(tables: ChainTables, i: nat, after: seq<EntryRow>)
    requires tables.Valid() && i < |tables.chains| && i == FindChain(tables.chains, tables.chains[i].id)
    requires after == OtherRows(tables.entries, tables.chains[i].id)
    ensures |tables.book| == |tables.chains|
    ensures var chains, book := tables.chains[..i] + tables.chains[i + 1..], tables.book[..i] + tables.book[i + 1..];
            && ChainsUnique(chains) && (forall j | 0 <= j < |chains| :: chains[j].id < tables.nextId)
            && NoOrphans(chains, after) && Rows(book) == chains && Stored(book, after, None)
    ensures AllContiguous(after) && OfChain(after, tables.chains[i].id) == []
    ensures forall c: nat, k: RouteKind | c != tables.chains[i].id ::
              LaneRows(after, c, k) == LaneRows(tables.entries, c, k)
  {
    hide OtherRows, LaneRows, ChainsUnique, NoOrphans, AllContiguous, OfChain, Rows, Stored, FindChain;
    var chains, book := tables.chains, tables.book;
    RowsAreBook(book);
    DeletedValid(chains, tables.entries, i);
    WithoutUnique(chains, i);
    StoredWithout(book, tables.entries, after, i);
    RowsAt(book, i, book[i]);
    var left := chains[..i] + chains[i + 1..];
    assert forall j | 0 <= j < |left| :: left[j] in left;
  }

  class ChainTables {
    var chains: seq<ChainRow>
    var entries: seq<EntryRow>
    var nextId: nat
    ghost var book: seq<Chain>

    /** Ids and client keys are unique, positions contiguous, and no entry is orphaned. */
    ghost predicate WellFormed()
      reads this
    {
      && ChainsUnique(chains) && (forall i | 0 <= i < |chains| :: chains[i].id < nextId)
      && NoOrphans(chains, entries) && AllContiguous(entries) && Rows(book) == chains
    }

    /** Well formed, and every chain stores the input the book has for it. */
    ghost predicate Valid()
      reads this
    {
      WellFormed() && Stored(book, entries, None)
    }

    constructor ()
      ensures Valid() && chains == [] && entries == [] && book == []
    {
      chains, entries, nextId, book := [], [], 1, [];
    }

    /** Every chain but `chainId` keeps its rows. */
    twostate predicate OthersKept(chainId: nat)
      reads this
    {
      forall c: nat, k: RouteKind | c != chainId :: LaneRows(entries, c, k) == old(LaneRows(entries, c, k))
    }

    /** Delete the chain's rows, then insert the new ones with per-lane counters. */
    method ReplaceEntries(chainId: nat, inputs: seq<EntryInput>)
      requires WellFormed() && Stored(book, entries, Some(chainId)) && HasChain(chains, chainId)
      modifies this`entries, this`nextId, this`book
      ensures Valid() && StoresInput(entries, chainId, inputs) && OthersKept(chainId)
      ensures var i := FindChain(chains, chainId); book == old(book)[i := Chain(chains[i], inputs)]
    {
      hide OtherRows, RowsFor, LaneRows, StoredLane, LaneSpecs, Stored, Rows, ChainsUnique, NoOrphans, AllContiguous,
        StoresInput, NormalizeEntries, HasChain;
      var kept := OtherRows(entries, chainId);
      var specs := NormalizeEntries(inputs);
      var rows := BuildRows(specs, chainId, nextId);
      EntriesReplaced(this, chainId, inputs, kept + rows);
      ghost var i := FindChain(chains, chainId);
      entries := kept + rows;
      nextId := nextId + |specs|;
      book := book[i := Chain(chains[i], inputs)];
    }

    static method BuildRows(specs: seq<NodeSpec>, chainId: nat, firstId: nat) returns (rows: seq<EntryRow>)
      ensures rows == RowsFor(specs, chainId, firstId)
    {
      rows := [];
      var positions: map<RouteKind, nat> := map[Chat := 0, Embeddings := 0];
      assert RowsFor(specs[..0], chainId, firstId) == [];
      assert LaneSpecs(specs[..0], Chat) == [] && LaneSpecs(specs[..0], Embeddings) == [];
      hide LaneSpecs, RowFor, RowsFor;
      for i := 0 to |specs|
        invariant rows == RowsFor(specs[..i], chainId, firstId)
        invariant Chat in positions && positions[Chat] == |LaneSpecs(specs[..i], Chat)|
        invariant Embeddings in positions && positions[Embeddings] == |LaneSpecs(specs[..i], Embeddings)|
      {
        var s := specs[i];
        var position := positions[s.routeKind];
        positions := positions[s.routeKind := position + 1];
        rows := rows + [RowFor(s, chainId, position, firstId + i)];
        RowsForSnoc(specs, i, chainId, firstId);
        LaneSpecsSnoc(specs, i, Chat);
        LaneSpecsSnoc(specs, i, Embeddings);
      }
      assert specs[..|specs|] == specs;
    }

    /** Insert a chain's row under a new id, without entries yet. */
    method AddChainRow(name: string, modelSelector: Option<string>, clientKey: Option<string>) returns (id: nat)
      requires Valid() && (clientKey.Some? ==> FindKey(chains, clientKey.value) == |chains|)
      modifies this`chains, this`nextId, this`book
      ensures WellFormed() && Stored(book, entries, Some(id))
      ensures !HasChain(old(chains), id) && HasChain(chains, id) && FindChain(chains, id) == |old(chains)|
      ensures chains == old(chains) + [ChainRow(id, name, clientKey, modelSelector)]
      ensures book == old(book) + [Chain(ChainRow(id, name, clientKey, modelSelector), [])]
    {
      hide StoresInput, NoOrphans, ChainsUnique, Rows, AllContiguous, Stored, HasChain;
      id := nextId;
      var row := ChainRow(id, name, clientKey, modelSelector);
      RowAdded(this, row);
      nextId := nextId + 1;
      chains := chains + [row];
      book := book + [Chain(row, [])];
    }

    /** Create a chain; a client key already in use is refused by the unique constraint. */
    method CreateChain(name: string, inputs: seq<EntryInput>, modelSelector: Option<string>, clientKey: Option<string>)
      returns (id: Option<nat>)
      requires Valid()
      modifies this
      ensures Valid()
      ensures id.None? <==> clientKey.Some? && FindKey(old(chains), clientKey.value) < |old(chains)|
      ensures id.None? ==> chains == old(chains) && entries == old(entries) && book == old(book)
      ensures id.Some? ==> chains == old(chains) + [ChainRow(id.value, name, clientKey, modelSelector)]
                           && !HasChain(old(chains), id.value) && OthersKept(id.value)
                           && StoresInput(entries, id.value, inputs)
                           && book == WithNewChain(old(book), id.value, name, clientKey, modelSelector, inputs)
    {
      hide StoresInput, StoredLane, LaneRows, Stored, ChainsUnique, NoOrphans, AllContiguous, HasChain;
      if clientKey.Some? && FindKey(chains, clientKey.value) < |chains| {
        return None;
      }
      var newId := AddChainRow(name, modelSelector, clientKey);
      ReplaceEntries(newId, inputs);
      id := Some(newId);
    }

    /** Create or replace the chain identified by a client key. */
    method UpsertChainByKey(key: string, name: string, inputs: seq<EntryInput>, modelSelector: Option<string>)
      returns (id: nat)
      requires Valid()
      modifies this
      ensures Valid() && StoresInput(entries, id, inputs) && OthersKept(id)
      ensures var i := FindKey(old(chains), key);
              if i < |old(chains)| then
                && id == old(chains)[i].id && chains == old(chains)[i := ChainRow(id, name, Some(key), modelSelector)]
                && book == old(book)[i := Chain(ChainRow(id, name, Some(key), modelSelector), inputs)]
              else
                && !HasChain(old(chains), id)
                && chains == old(chains) + [ChainRow(id, name, Some(key), modelSelector)]
                && book == WithNewChain(old(book), id, name, Some(key), modelSelector, inputs)
    {
      hide StoresInput, StoredLane, LaneRows, Stored, ChainsUnique, NoOrphans, AllContiguous, HasChain;
      var i := FindKey(chains, key);
      if i == |chains| {
        var created := CreateChain(name, inputs, modelSelector, Some(key));
        return created.value;
      }
      id := chains[i].id;
      SetRow(i, chains[i].(name := name, modelSelector := modelSelector));
      ReplaceEntries(id, inputs);
    }

    /** Change a row but for its id and client key. */
    method SetRow(i: nat, row: ChainRow)
      requires Valid() && i < |chains| && row.id == chains[i].id && row.clientKey == chains[i].clientKey
      modifies this`chains, this`book
      ensures Valid() && Stored(book, entries, Some(row.id))
      ensures HasChain(chains, row.id) && FindChain(chains, row.id) == i
      ensures chains == old(chains)[i := row] && book == old(book)[i := Chain(row, old(book)[i].inputs)]
    {
      RowsAreBook(book);
      RowEdited(chains, entries, i, row);
      RowsAt(book, i, Chain(row, book[i].inputs));
      hide StoresInput, NoOrphans, AllContiguous, Rows;
      chains := chains[i := row];
      book := book[i := Chain(row, book[i].inputs)];
    }

    /** Change only what is given; `modelSelector` distinguishes "leave" from "clear". */
    method EditChain(id: nat, name: Option<string>, modelSelector: Option<Option<string>>,
                     inputs: Option<seq<EntryInput>>)
      returns (found: bool)
      requires Valid()
      modifies this
      ensures Valid()
      ensures found == HasChain(old(chains), id)
      ensures !found ==> chains == old(chains) && entries == old(entries) && book == old(book)
      ensures found ==>
        var i := FindChain(old(chains), id);
        var row := EditedRow(old(chains)[i], name, modelSelector);
        && chains == old(chains)[i := row]
        && book == old(book)[i := Chain(row, if inputs.Some? then inputs.value else old(book)[i].inputs)]
      ensures found && inputs.Some? ==> StoresInput(entries, id, inputs.value) && OthersKept(id)
      ensures found && inputs.None? ==> entries == old(entries)
    {
      hide StoresInput, StoredLane, LaneRows, Stored, ChainsUnique, NoOrphans, AllContiguous;
      var i := FindChain(chains, id);
      if i == |chains| {
        return false;
      }
      var row := chains[i];
      if name.Some? {
        row := row.(name := name.value);
      }
      if modelSelector.Some? {
        row := row.(modelSelector := modelSelector.value);
      }
      SetRow(i, row);
      if inputs.Some? {
        ReplaceEntries(id, inputs.value);
      }
      found := true;
    }

    /** Delete a chain; its entries go with it. */
    method DeleteChain(id: nat) returns (found: bool)
      requires Valid()
      modifies this
      ensures Valid()
      ensures found == HasChain(old(chains), id)
      ensures !found ==> chains == old(chains) && entries == old(entries) && book == old(book)
      ensures found ==>
        var i := FindChain(old(chains), id);
        chains == old(chains)[..i] + old(chains)[i + 1..] && book == old(book)[..i] + old(book)[i + 1..]
      ensures found ==> OfChain(entries, id) == [] && OthersKept(id)
    {
      hide OtherRows, LaneRows, Stored, ChainsUnique, NoOrphans, AllContiguous, Rows, OfChain;
      var i := FindChain(chains, id);
      if i == |chains| {
        return false;
      }
      var kept := OtherRows(entries, id);
      ChainDeleted(this, i, kept);
      chains := chains[..i] + chains[i + 1..];
      book := book[..i] + book[i + 1..];
      entries := kept;
      found := true;
    }

    /** Every command does to the book what `After` says. */
    method Apply(c: Command) returns (added: Option<nat>, ghost newId: nat)
      requires Valid()
      modifies this
      ensures Valid() && !HasChain(old(chains), newId) && book == After(old(book), c, newId)
      ensures added == if |book| > |old(book)| then Some(newId) else None
    {
      hide StoresInput, StoredLane, LaneRows, Stored, ChainsUnique, NoOrphans, AllContiguous;
      added, newId := None, FreshId();
      RowsAreBook(book);
      match c {
        case Create(name, inputs, selector, key) =>
          added := CreateChain(name, inputs, selector, key);
          newId := if added.Some? then added.value else newId;
        case Upsert(key, name, inputs, selector) =>
          var known := FindKey(chains, key) < |chains|;
          var id := UpsertChainByKey(key, name, inputs, selector);
          if !known {
            added, newId := Some(id), id;
          }
        case Edit(id, name, selector, inputs) => var _ := EditChain(id, name, selector, inputs);
        case Delete(id) => var _ := DeleteChain(id);
      }
    }

    ghost function FreshId(): (id: nat)
      requires Valid()
      reads this
      ensures !HasChain(chains, id)
    {
      nextId
    }
  }

  /** Loading the chain's rows and taking the lane gives the nodes given for that lane, in
      input order, at positions 0, 1, ... */
  ghost predicate LoadsAs(stored: seq<EntryRow>, chainId: nat, kind: RouteKind, inputs: seq<EntryInput>) {
    var lane, given := ForRoute(LoadRoutingChain(stored, chainId), kind), GivenFor(inputs, kind);
    && |lane| == |given|
    && forall i | 0 <= i < |lane| ::
         && NodeIs(given[i], lane[i].accountId, lane[i].modelId, lane[i].policy)
         && lane[i].routeKind == kind && lane[i].position == Some(i) && lane[i].nodeId.Some?
  }

  /** The persistence round trip: once a chain's input is stored, it loads as that input from
      any arrangement of the table. */
  lemma PersistenceRoundTrip(stored: seq<EntryRow>, entries: seq<EntryRow>, chainId: nat, inputs: seq<EntryInput>,
                             kind: RouteKind)
    requires Permutation(stored, entries) && AllContiguous(entries)
    requires StoresLane(entries, chainId, inputs, kind)
    ensures LoadsAs(stored, chainId, kind, inputs)
  {
    hide Filter;
    LoadedLane(stored, entries, chainId, kind);
    var rows := LaneRows(entries, chainId, kind);
    assert Contiguous(rows);
    LaneMembers(entries, chainId, kind);
    hide LaneRows, LoadRoutingChain, ForRoute, GivenFor, NodeIs;
    var lane := ForRoute(LoadRoutingChain(stored, chainId), kind);
    assert forall i | 0 <= i < |lane| :: lane[i] == ToTarget(rows[i]);
  }

  /** In every valid table each chain loads as the input the book has for it, lane by lane,
      from any arrangement of the rows. */
  lemma WrittenRoundTrip(tables: ChainTables, stored: seq<EntryRow>, i: nat, kind: RouteKind)
    requires tables.Valid() && i < |tables.book| && Permutation(stored, tables.entries)
    ensures LoadsAs(stored, tables.book[i].row.id, kind, tables.book[i].inputs)
  {
    var chain := tables.book[i];
    assert StoresInput(tables.entries, chain.row.id, chain.inputs);
    PersistenceRoundTrip(stored, tables.entries, chain.row.id, chain.inputs, kind);
  }

  /** The tables hold exactly the chains of the book, and each loads as its input, from any
      arrangement of the rows. */
  ghost predicate Shows(chains: seq<ChainRow>, entries: seq<EntryRow>, book: seq<Chain>) {
    && chains == Rows(book)
    && forall stored: seq<EntryRow>, i: nat, kind: RouteKind | i < |book| ::
         LoadsFrom(stored, entries, book[i], kind)
  }

  ghost predicate LoadsFrom(stored: seq<EntryRow>, entries: seq<EntryRow>, chain: Chain, kind: RouteKind) {
    Permutation(stored, entries) ==> LoadsAs(stored, chain.row.id, kind, chain.inputs)
  }

  lemma ValidShows(tables: ChainTables)
    requires tables.Valid()
    ensures Shows(tables.chains, tables.entries, tables.book)
  {
    forall stored: seq<EntryRow>, i: nat, kind: RouteKind | i < |tables.book|
      ensures LoadsFrom(stored, tables.entries, tables.book[i], kind)
    {
      if Permutation(stored, tables.entries) {
        WrittenRoundTrip(tables, stored, i, kind);
      }
    }
  }

  /** Every run of create, upsert, edit and delete leaves the tables with exactly the chains
      those commands leave, each loading as the input they last gave it. */
  method RunCommands(commands: seq<Command>) returns (tables: ChainTables, ghost ids: seq<nat>)
    ensures tables.Valid() && |ids| == |commands| && FreshIds(commands, ids)
    ensures Shows(tables.chains, tables.entries, BookOf(commands, ids))
  {
    hide After, StoresInput, Stored, Rows, HasChain;
    tables := new ChainTables();
    ids := [];
    for i := 0 to |commands|
      invariant fresh(tables) && tables.Valid() && |ids| == i
      invariant tables.book == BookOf(commands[..i], ids) && FreshIds(commands[..i], ids)
    {
      var _, newId := tables.Apply(commands[i]);
      BookSnoc(commands, ids, i, newId);
      ids := ids + [newId];
    }
    assert commands[..|commands|] == commands;
    ValidShows(tables);
  }

  lemma BookSnoc(commands: seq<Command>, ids: seq<nat>, i: nat, id: nat)
    requires i < |commands| && |ids| == i && FreshIds(commands[..i], ids)
    requires !HasChain(Rows(BookOf(commands[..i], ids)), id)
    ensures BookOf(commands[..i + 1], ids + [id]) == After(BookOf(commands[..i], ids), commands[i], id)
    ensures FreshIds(commands[..i + 1], ids + [id])
  {
    hide After, HasChain, Rows;
    var longer, more := commands[..i + 1], ids + [id];
    assert longer[..i] == commands[..i] && more[..i] == ids;
    forall n: nat | n < |longer|
      ensures FreshAt(longer, more, n)
    {
      if n < i {
        assert longer[..n] == commands[..i][..n] && more[..n] == ids[..n];
        assert FreshAt(commands[..i], ids, n);
      }
    }
  }

  // --- A client key names one chain --------------------------------------------

  function Keyed(book: seq<Chain>, key: string): Option<Chain> {
    var i := FindKey(Rows(book), key);
    if i < |book| then Some(book[i]) else None
  }

  /** The input of the chain with this id and key after a command, had it `inputs` before. */
  function Given(c: Command, key: string, id: nat, inputs: seq<EntryInput>): seq<EntryInput> {
    match c
    case Upsert(k, _, given, _) => if k == key then given else inputs
    case Edit(i, _, _, given) => if i == id && given.Some? then given.value else inputs
    case _ => inputs
  }

  function LastGiven(commands: seq<Command>, key: string, id: nat, inputs: seq<EntryInput>): seq<EntryInput> {
    if commands == [] then inputs
    else Given(commands[|commands| - 1], key, id, LastGiven(commands[..|commands| - 1], key, id, inputs))
  }

  lemma KeyedAt(book: seq<Chain>, i: nat, key: string)
    requires i < |book| && ChainsUnique(Rows(book)) && book[i].row.clientKey == Some(key)
    ensures Keyed(book, key) == Some(book[i])
  {
    assert Rows(book)[i] == book[i].row;
  }

  lemma UniqueEdited(chains: seq<ChainRow>, i: nat, row: ChainRow)
    requires i < |chains| && ChainsUnique(chains) && row.id == chains[i].id && row.clientKey == chains[i].clientKey
    ensures ChainsUnique(chains[i := row])
  {
  }

  /** No command breaks the uniqueness of ids and client keys. */
  lemma AfterUnique(book: seq<Chain>, c: Command, newId: nat)
    requires ChainsUnique(Rows(book)) && !HasChain(Rows(book), newId)
    ensures ChainsUnique(Rows(After(book, c, newId)))
  {
    hide ChainsUnique, HasChain;
    RowsAreBook(book);
    var after := After(book, c, newId);
    if |after| > |book| {
      RowsSnoc(book, after[|book|]);
      UniqueWithRow(Rows(book), after[|book|].row);
    } else if |after| < |book| {
      var i := FindChain(Rows(book), c.id);
      RowsAt(book, i, book[i]);
      WithoutUnique(Rows(book), i);
    } else if !c.Create? {
      var i := if c.Upsert? then FindKey(Rows(book), c.clientKey) else FindChain(Rows(book), c.id);
      if i < |book| {
        RowsAt(book, i, after[i]);
        UniqueEdited(Rows(book), i, after[i].row);
      }
    }
  }

  /** A command drops the chain it deletes, adds the one it creates, and keeps every other. */
  lemma IdsAfter(book: seq<Chain>, c: Command, newId: nat)
    requires ChainsUnique(Rows(book)) && !HasChain(Rows(book), newId)
    ensures var after := After(book, c, newId);
            forall x: nat :: HasChain(Rows(after), x)
                        <==> (HasChain(Rows(book), x) && c != Delete(x)) || (|after| > |book| && x == newId)
  {
    var after := After(book, c, newId);
    RowsAreBook(book);
    RowsAreBook(after);
    if |after| > |book| {
      RowsSnoc(book, after[|book|]);
      forall x: nat
        ensures HasChain(Rows(after), x) <==> HasChain(Rows(book), x) || x == newId
      {
        AddedId(Rows(book), after[|book|].row, x);
      }
    } else if c.Delete? && HasChain(Rows(book), c.id) {
      var i := FindChain(Rows(book), c.id);
      RowsAt(book, i, book[i]);
      forall x: nat
        ensures HasChain(Rows(after), x) <==> HasChain(Rows(book), x) && x != c.id
      {
        DroppedId(Rows(book), i, x);
      }
    } else {
      forall x: nat
        ensures HasChain(Rows(after), x) <==> HasChain(Rows(book), x)
      {
        SameIds(Rows(book), Rows(after), x);
      }
    }
  }

  lemma AddedId(chains: seq<ChainRow>, row: ChainRow, x: nat)
    ensures HasChain(chains + [row], x) <==> HasChain(chains, x) || x == row.id
  {
    var i := FindChain(chains, x);
    if i < |chains| {
      assert (chains + [row])[i].id == x;
    } else if x == row.id {
      assert (chains + [row])[|chains|].id == x;
    }
  }

  lemma DroppedId(chains: seq<ChainRow>, i: nat, x: nat)
    requires i < |chains| && ChainsUnique(chains)
    ensures HasChain(chains[..i] + chains[i + 1..], x) <==> HasChain(chains, x) && x != chains[i].id
  {
    var left := chains[..i] + chains[i + 1..];
    if HasChain(left, x) {
      var j := FindChain(left, x);
      var m := if j < i then j else j + 1;
      assert left[j] == chains[m];
      HasChainByIndex(chains, m);
    }
    if HasChain(chains, x) && x != chains[i].id {
      StillThere(chains, i, x);
    }
  }

  lemma SameIds(a: seq<ChainRow>, b: seq<ChainRow>, x: nat)
    requires |a| == |b| && forall i | 0 <= i < |a| :: a[i].id == b[i].id
    ensures HasChain(a, x) <==> HasChain(b, x)
  {
  }

  /** A command other than its deletion leaves a keyed chain its id, and its input is what the
      command gave it or what it was. */
  lemma KeyedAfter(book: seq<Chain>, c: Command, newId: nat, key: string)
    requires ChainsUnique(Rows(book)) && !HasChain(Rows(book), newId)
    requires Keyed(book, key).Some? && c != Delete(Keyed(book, key).value.row.id)
    ensures var was, later := Keyed(book, key).value, Keyed(After(book, c, newId), key);
            && later.Some? && later.value.row.id == was.row.id
            && later.value.inputs == Given(c, key, was.row.id, was.inputs)
  {
    var i := FindKey(Rows(book), key);
    RowsAreBook(book);
    AfterUnique(book, c, newId);
    var j := ChainAfter(book, c, newId, i, key);
    hide After, Given, ChainsUnique, HasChain;
    KeyedAt(After(book, c, newId), j, key);
  }

  lemma RowsAreBook(book: seq<Chain>)
    ensures |Rows(book)| == |book| && forall i | 0 <= i < |book| :: Rows(book)[i] == book[i].row
  {
  }

  /** Where a command leaves the `i`-th chain, which carries the key. */
  lemma ChainAfter(book: seq<Chain>, c: Command, newId: nat, i: nat, key: string) returns (j: nat)
    requires i < |book| && i == FindKey(Rows(book), key) && ChainsUnique(Rows(book)) && c != Delete(book[i].row.id)
    ensures var after := After(book, c, newId);
            && j < |after| && after[j].row.clientKey == Some(key) && after[j].row.id == book[i].row.id
            && after[j].inputs == Given(c, key, book[i].row.id, book[i].inputs)
  {
    RowsAreBook(book);
    hide ChainsUnique, FindKey, FindChain, Rows;
    j := i;
    if c.Edit? || c.Delete? {
      FoundById(Rows(book), i, c.id);
      if c.Delete? {
        j := AfterDelete(book, c.id, newId, i);
      }
    }
  }

  lemma AfterDelete(book: seq<Chain>, id: nat, newId: nat, i: nat) returns (j: nat)
    requires i < |book| && FindChain(Rows(book), id) != i
    ensures var after := After(book, Delete(id), newId); j < |after| && after[j] == book[i]
  {
    RowsAreBook(book);
    hide FindChain, Rows;
    var d := FindChain(Rows(book), id);
    j := if d < i then i - 1 else i;
    if d < |book| {
      Dropped(book, d, i);
    }
  }

  lemma {:induction false} BookUnique(commands: seq<Command>, ids: seq<nat>, n: nat)
    requires n <= |commands| == |ids| && FreshIds(commands, ids)
    ensures ChainsUnique(Rows(BookOf(commands[..n], ids[..n])))
  {
    assert ChainsUnique(Rows([]));
    hide After, HasChain, ChainsUnique;
    if n > 0 {
      BookUnique(commands, ids, n - 1);
      assert commands[..n][..n - 1] == commands[..n - 1] && ids[..n][..n - 1] == ids[..n - 1];
      assert FreshAt(commands, ids, n - 1);
      AfterUnique(BookOf(commands[..n - 1], ids[..n - 1]), commands[n - 1], ids[n - 1]);
    }
  }

  /** A client key names one chain for as long as nobody deletes it: from the n-th command on
      its id stays, and its input is the last one given by an upsert of the key or an edit of
      the id. */
  lemma {:induction false} KeyIsStable(commands: seq<Command>, ids: seq<nat>, n: nat, m: nat, key: string)
    requires n <= m <= |commands| == |ids| && FreshIds(commands, ids)
    requires Keyed(BookOf(commands[..n], ids[..n]), key).Some?
    requires var id := Keyed(BookOf(commands[..n], ids[..n]), key).value.row.id;
             forall j | n <= j < m :: commands[j] != Delete(id)
    ensures var was := Keyed(BookOf(commands[..n], ids[..n]), key).value;
            var later := Keyed(BookOf(commands[..m], ids[..m]), key);
            && later.Some? && later.value.row.id == was.row.id
            && later.value.inputs == LastGiven(commands[n..m], key, was.row.id, was.inputs)
    decreases m - n
  {
    hide After, HasChain, ChainsUnique, Keyed, Given;
    if n < m {
      KeyIsStable(commands, ids, n, m - 1, key);
      assert commands[..m][..m - 1] == commands[..m - 1] && ids[..m][..m - 1] == ids[..m - 1];
      assert commands[n..m][..m - 1 - n] == commands[n..m - 1];
      assert FreshAt(commands, ids, m - 1);
      BookUnique(commands, ids, m - 1);
      KeyedAfter(BookOf(commands[..m - 1], ids[..m - 1]), commands[m - 1], ids[m - 1], key);
    }
  }
}
