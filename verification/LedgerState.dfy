/** Reading the metadata of a validated transaction: which ledger objects it created. */
module LedgerState {
  import opened Options

  datatype Fields = Fields(index: Option<string>, loanSeq: Option<int>)

  /** One node of the metadata as the ledger sends it; any field may be missing. */
  datatype NodeBody = NodeBody(
    ledgerEntryType: Option<string>,
    LedgerIndex: Option<string>,
    ledger_index: Option<string>,
    newFields: Option<Fields>)

  datatype AffectedItem = AffectedItem(
    created: Option<NodeBody>,
    modified: Option<NodeBody>,
    deleted: Option<NodeBody>)

  datatype Action = Created | Modified | Deleted

  datatype Node = Node(
    action: Action,
    entryType: Option<string>,
    ledgerIndex: Option<string>,
    newFields: Option<Fields>)

  /** The first operand unless it is null. */
  function OrElse<T>(a: Option<T>, b: Option<T>): Option<T> { if a.Some? then a else b }

  // ---------- normalisation ----------

  function IndexOf(n: NodeBody): Option<string> { OrElse(n.LedgerIndex, n.ledger_index) }

  function NormalizeItem(item: AffectedItem): Option<Node> {
    match item.created
    case Some(n) =>
      Some(Node(Created, n.ledgerEntryType, IndexOf(n), Some(if n.newFields.Some? then n.newFields.value else Fields(None, None))))
    case None =>
      match item.modified
      case Some(n) => Some(Node(Modified, n.ledgerEntryType, IndexOf(n), None))
      case None =>
        match item.deleted
        case Some(n) => Some(Node(Deleted, n.ledgerEntryType, IndexOf(n), None))
        case None => None
  }

  function NormalizeAffectedNodes(items: seq<AffectedItem>): seq<Node> {
    if items == [] then []
    else
      (match NormalizeItem(items[0])
       case Some(n) => [n]
       case None => []) + NormalizeAffectedNodes(items[1..])
  }

  lemma {:induction false} NormalizeConcat(a: seq<AffectedItem>, b: seq<AffectedItem>)
    ensures NormalizeAffectedNodes(a + b) == NormalizeAffectedNodes(a) + NormalizeAffectedNodes(b)
  {
    if a == [] {
      assert a + b == b;
    } else {
      assert (a + b)[1..] == a[1..] + b;
      NormalizeConcat(a[1..], b);
    }
  }

  /** The node is the one of the item: created, else modified, else deleted, under either spelling of its index. */
  ghost predicate NodeOf(item: AffectedItem, n: Node) {
    if item.created.Some? then
      n.action == Created && FromBody(item.created.value, n)
      && n.newFields == Some(match item.created.value.newFields case Some(f) => f case None => Fields(None, None))
    else if item.modified.Some? then n.action == Modified && FromBody(item.modified.value, n) && n.newFields == None
    else item.deleted.Some? && n.action == Deleted && FromBody(item.deleted.value, n) && n.newFields == None
  }

  ghost predicate FromBody(b: NodeBody, n: Node) {
    && n.entryType == b.ledgerEntryType
    && n.ledgerIndex == (match b.LedgerIndex case Some(i) => Some(i) case None => b.ledger_index)
  }

  ghost predicate HasNode(item: AffectedItem) { item.created.Some? || item.modified.Some? || item.deleted.Some? }

  lemma OneItem(item: AffectedItem)
    ensures var n := NormalizeItem(item);
            && (n.Some? <==> HasNode(item)) && (n.Some? ==> NodeOf(item, n.value))
            && NormalizeAffectedNodes([item]) == if n.Some? then [n.value] else []
  {
    assert NormalizeAffectedNodes([item][1..]) == [];
  }

  /** The nodes come from these items, each from its own. */
  ghost predicate ComeFrom(nodes: seq<Node>, items: seq<AffectedItem>, sources: seq<nat>) {
    && |sources| == |nodes|
    && (forall k, l | 0 <= k < l < |sources| :: sources[k] < sources[l])
    && (forall k | 0 <= k < |sources| :: sources[k] < |items| && NodeOf(items[sources[k]], nodes[k]))
  }

  lemma ComeFromMore(nodes: seq<Node>, items: seq<AffectedItem>, sources: seq<nat>, last: AffectedItem)
    requires ComeFrom(nodes, items, sources)
    ensures ComeFrom(nodes, items + [last], sources)
    ensures forall n: Node | NodeOf(last, n) :: ComeFrom(nodes + [n], items + [last], sources + [|items|])
  {
    hide NodeOf;
    var more := items + [last];
    forall k | 0 <= k < |sources| ensures more[sources[k]] == items[sources[k]] {}
  }

  ghost predicate AllWithNodes(items: seq<AffectedItem>, sources: seq<nat>) {
    forall i: nat :: i in sources <==> i < |items| && HasNode(items[i])
  }

  lemma AllWithMore(items: seq<AffectedItem>, sources: seq<nat>, last: AffectedItem)
    requires AllWithNodes(items, sources)
    ensures AllWithNodes(items + [last], if HasNode(last) then sources + [|items|] else sources)
  {
    hide HasNode;
  }

  /** The nodes are those of the items that have one, in order. */
  lemma {:induction false} NodesOfItems(items: seq<AffectedItem>) returns (sources: seq<nat>)
    ensures ComeFrom(NormalizeAffectedNodes(items), items, sources) && AllWithNodes(items, sources)
  {
    hide NormalizeItem, NormalizeAffectedNodes, NodeOf, HasNode, ComeFrom, AllWithNodes;
    if items == [] {
      sources := [];
      NoNodes();
    } else {
      var n: nat := |items| - 1;
      var front, last := items[..n], items[n];
      sources := NodesOfItems(front);
      assert items == front + [last];
      NormalizeConcat(front, [last]);
      OneItem(last);
      ComeFromMore(NormalizeAffectedNodes(front), front, sources, last);
      AllWithMore(front, sources, last);
      assert NormalizeAffectedNodes(front) + [] == NormalizeAffectedNodes(front);
      if HasNode(last) { sources := sources + [n]; }
    }
  }

  lemma NoNodes()
    ensures NormalizeAffectedNodes([]) == [] && ComeFrom([], [], []) && AllWithNodes([], [])
  {
  }

  // ---------- created ids ----------

  datatype ObjectType = Vault | LoanBroker | Loan

  predicate Names(t: ObjectType, name: Option<string>) {
    match t
    case Vault => name == Some("Vault")
    case LoanBroker => name == Some("LoanBroker") || name == Some("LoanManager")
    case Loan => name == Some("Loan")
  }

  predicate Creates(n: Node, t: ObjectType) { n.action == Created && Names(t, n.entryType) }

  function CreatedIndex(n: Node): Option<string> {
    OrElse(n.ledgerIndex, if n.newFields.Some? then n.newFields.value.index else None)
  }

  function LoanSeqOf(n: Node): Option<int> {
    if n.newFields.Some? then n.newFields.value.loanSeq else None
  }

  datatype Ids = Ids(vaultId: Option<string>, loanBrokerId: Option<string>, loanId: Option<string>, loanSeq: Option<int>)

  /** The node whose index is reported for a type: the last one seen while none had a usable index. */
  ghost function Picked(nodes: seq<Node>, t: ObjectType): (i: Option<nat>)
    ensures i.Some? ==> i.value < |nodes| && Creates(nodes[i.value], t)
  {
    if nodes == [] then None
    else
      var k := |nodes| - 1;
      var before := Picked(nodes[..k], t);
      if Creates(nodes[k], t) && !(before.Some? && Truthy(CreatedIndex(nodes[before.value]))) then Some(k)
      else before
  }

  ghost function PickedIndex(nodes: seq<Node>, t: ObjectType): Option<string> {
    var i := Picked(nodes, t);
    if i.Some? then CreatedIndex(nodes[i.value]) else None
  }

  ghost function PickedSeq(nodes: seq<Node>): Option<int> {
    var i := Picked(nodes, Loan);
    if i.Some? then LoanSeqOf(nodes[i.value]) else None
  }

  ghost function Extracted(nodes: seq<Node>): Ids {
    Ids(PickedIndex(nodes, Vault), PickedIndex(nodes, LoanBroker), PickedIndex(nodes, Loan), PickedSeq(nodes))
  }

  lemma NothingPicked()
    ensures Extracted([]) == Ids(None, None, None, None)
  {
  }

  /** A created node becomes the pick of its type while the pick has no usable index. */
  lemma PickStep(nodes: seq<Node>, i: nat, t: ObjectType)
    requires i < |nodes|
    ensures var takes := Creates(nodes[i], t) && !Truthy(PickedIndex(nodes[..i], t));
            && PickedIndex(nodes[..i + 1], t) == (if takes then CreatedIndex(nodes[i]) else PickedIndex(nodes[..i], t))
            && (t == Loan ==>
                  PickedSeq(nodes[..i + 1]) == if takes then LoanSeqOf(nodes[i]) else PickedSeq(nodes[..i]))
  {
    assert nodes[..i + 1][..i] == nodes[..i];
  }

  method ExtractCreatedLedgerIds(items: seq<AffectedItem>) returns (ids: Ids)
    ensures ids == Extracted(NormalizeAffectedNodes(items))
  {
    hide Picked;
    var nodes := NormalizeAffectedNodes(items);
    NothingPicked();
    ids := Ids(None, None, None, None);
    for i := 0 to |nodes|
      invariant ids == Extracted(nodes[..i])
    {
      var node := nodes[i];
      PickStep(nodes, i, Vault);
      PickStep(nodes, i, LoanBroker);
      PickStep(nodes, i, Loan);
      if node.action == Created {
        var idx := CreatedIndex(node);
        if node.entryType == Some("Vault") && !Truthy(ids.vaultId) {
          ids := ids.(vaultId := idx);
        }
        if (node.entryType == Some("LoanBroker") || node.entryType == Some("LoanManager")) && !Truthy(ids.loanBrokerId) {
          ids := ids.(loanBrokerId := idx);
        }
        if node.entryType == Some("Loan") && !Truthy(ids.loanId) {
          ids := ids.(loanId := idx, loanSeq := LoanSeqOf(node));
        }
      }
    }
    assert nodes[..|nodes|] == nodes;
  }

  // ---------- what is picked ----------

  ghost predicate Usable(nodes: seq<Node>, t: ObjectType, i: nat) {
    i < |nodes| && Creates(nodes[i], t) && Truthy(CreatedIndex(nodes[i]))
  }

  /** i is the first created node of the type that has a non-empty index. */
  ghost predicate FirstUsable(nodes: seq<Node>, t: ObjectType, i: nat) {
    Usable(nodes, t, i) && forall j: nat | j < i :: !Usable(nodes, t, j)
  }

  /** The node picked is the first usable one, and without a usable one no index is reported. */
  lemma {:induction false} PicksFirstUsable(nodes: seq<Node>, t: ObjectType)
    ensures Truthy(PickedIndex(nodes, t)) ==> FirstUsable(nodes, t, Picked(nodes, t).value)
    ensures (exists i: nat :: Usable(nodes, t, i)) ==> Truthy(PickedIndex(nodes, t))
  {
    if nodes != [] {
      var k := |nodes| - 1;
      var front := nodes[..k];
      PicksFirstUsable(front, t);
      forall i: nat | Usable(nodes, t, i) && i < k ensures Usable(front, t, i) {}
      forall i: nat | Usable(front, t, i) ensures Usable(nodes, t, i) {}
    }
  }

  /** The first usable node alone decides: its index is the id. */
  lemma FirstUsableIsExtracted(nodes: seq<Node>, t: ObjectType, i: nat)
    requires FirstUsable(nodes, t, i)
    ensures Picked(nodes, t) == Some(i) && PickedIndex(nodes, t) == CreatedIndex(nodes[i])
  {
    PicksFirstUsable(nodes, t);
    var p := Picked(nodes, t).value;
    assert !(p < i) && !(i < p);
  }

  /** A usable loan id and the loan sequence come from one node. */
  lemma LoanIdWithItsSeq(nodes: seq<Node>)
    requires Truthy(Extracted(nodes).loanId)
    ensures exists i: nat :: FirstUsable(nodes, Loan, i)
              && Extracted(nodes).loanId == CreatedIndex(nodes[i])
              && Extracted(nodes).loanSeq == LoanSeqOf(nodes[i])
  {
    PicksFirstUsable(nodes, Loan);
  }

  /** Over two lists in a row: the first list's pick if it is usable or the second has none, else the second's. */
  lemma {:induction false} PickedConcat(a: seq<Node>, b: seq<Node>, t: ObjectType)
    ensures Picked(a + b, t) == if Truthy(PickedIndex(a, t)) || Picked(b, t).None? then Picked(a, t)
                                else Some(|a| + Picked(b, t).value)
  {
    hide Creates, CreatedIndex;
    if b == [] {
      assert a + b == a;
    } else {
      var k := |b| - 1;
      assert (a + b)[..|a| + k] == a + b[..k];
      PickedConcat(a, b[..k], t);
    }
  }

  lemma PickConcat(a: seq<Node>, b: seq<Node>, t: ObjectType)
    ensures var first := Truthy(PickedIndex(a, t)) || Picked(b, t).None?;
            && PickedIndex(a + b, t) == (if first then PickedIndex(a, t) else PickedIndex(b, t))
            && (t == Loan ==> PickedSeq(a + b) == if first then PickedSeq(a) else PickedSeq(b))
  {
    hide Picked;
    PickedConcat(a, b, t);
    var i := Picked(a + b, t);
    assert i.Some? ==> (a + b)[i.value] == if i.value < |a| then a[i.value] else b[i.value - |a|];
  }

  /** So the ids extracted from two lists in a row are those of one of the lists, and the loan sequence goes with its id. */
  lemma ExtractedConcat(a: seq<Node>, b: seq<Node>)
    ensures var x, y, z := Extracted(a), Extracted(b), Extracted(a + b);
            && z.vaultId == (if Truthy(x.vaultId) || Picked(b, Vault).None? then x.vaultId else y.vaultId)
            && z.loanBrokerId == (if Truthy(x.loanBrokerId) || Picked(b, LoanBroker).None? then x.loanBrokerId else y.loanBrokerId)
            && (if Truthy(x.loanId) || Picked(b, Loan).None? then z.loanId == x.loanId && z.loanSeq == x.loanSeq
                else z.loanId == y.loanId && z.loanSeq == y.loanSeq)
  {
    hide Picked, PickedIndex, PickedSeq;
    PickConcat(a, b, Vault);
    PickConcat(a, b, LoanBroker);
    PickConcat(a, b, Loan);
  }

  /** Over two lists in a row, the first usable id wins. */
  lemma FirstUsableWins(a: seq<Node>, b: seq<Node>, t: ObjectType)
    ensures Truthy(PickedIndex(a, t)) ==> PickedIndex(a + b, t) == PickedIndex(a, t)
    ensures !Truthy(PickedIndex(a, t)) && Truthy(PickedIndex(b, t)) ==> PickedIndex(a + b, t) == PickedIndex(b, t)
    ensures !Truthy(PickedIndex(a, t)) && !Truthy(PickedIndex(b, t)) ==> !Truthy(PickedIndex(a + b, t))
  {
    PickedConcat(a, b, t);
  }

  // ---------- the ids, from the metadata itself ----------

  ghost function EntryTypes(t: ObjectType): set<string> {
    match t
    case Vault => {"Vault"}
    case LoanBroker => {"LoanBroker", "LoanManager"}
    case Loan => {"Loan"}
  }

  /** The index under which a created node reports its object: its own, in either spelling, or that of its new fields. */
  ghost function ReportedIndex(b: NodeBody): Option<string> {
    if b.LedgerIndex.Some? then b.LedgerIndex
    else if b.ledger_index.Some? then b.ledger_index
    else if b.newFields.Some? then b.newFields.value.index
    else None
  }

  /** The item creates an object of the type under a non-empty index. */
  ghost predicate CreatesUnder(item: AffectedItem, t: ObjectType, id: string) {
    && item.created.Some? && item.created.value.ledgerEntryType.Some?
    && item.created.value.ledgerEntryType.value in EntryTypes(t)
    && id != "" && ReportedIndex(item.created.value) == Some(id)
  }

  lemma CreatesByItem(item: AffectedItem, n: Node, t: ObjectType, id: string)
    requires NodeOf(item, n)
    ensures CreatesUnder(item, t, id) <==> Creates(n, t) && id != "" && CreatedIndex(n) == Some(id)
  {
  }

  /** The first item that creates an object of the type under a non-empty index. */
  ghost predicate FirstCreated(items: seq<AffectedItem>, t: ObjectType, id: string, i: nat) {
    i < |items| && CreatesUnder(items[i], t, id) && forall j: nat, other: string | j < i :: !CreatesUnder(items[j], t, other)
  }

  lemma FirstItemDecides(items: seq<AffectedItem>, t: ObjectType, id: string, i: nat)
    requires FirstCreated(items, t, id, i)
    ensures items[i].created.Some? && id != "" && PickedIndex(NormalizeAffectedNodes(items), t) == Some(id)
    ensures t == Loan ==> PickedSeq(NormalizeAffectedNodes(items))
                          == match items[i].created.value.newFields case Some(f) => f.loanSeq case None => None
  {
    hide Picked, PickedIndex, PickedSeq, CreatesUnder, NodeOf, Creates, CreatedIndex, NormalizeAffectedNodes;
    var nodes := NormalizeAffectedNodes(items);
    var sources := NodesOfItems(items);
    CreatingHasNode(items[i], t, id);
    var k :| 0 <= k < |sources| && sources[k] == i;
    CreatesByItem(items[i], nodes[k], t, id);
    assert Usable(nodes, t, k);
    forall l: nat | l < k ensures !Usable(nodes, t, l) {
      if Usable(nodes, t, l) {
        CreatesByItem(items[sources[l]], nodes[l], t, CreatedIndex(nodes[l]).value);
      }
    }
    FirstUsableIsExtracted(nodes, t, k);
    SeqOfItem(items[i], nodes, t, k);
  }

  lemma ReportedFromFirstItem(items: seq<AffectedItem>, t: ObjectType, id: string) returns (i: nat)
    requires id != "" && PickedIndex(NormalizeAffectedNodes(items), t) == Some(id)
    ensures FirstCreated(items, t, id, i)
  {
    hide Picked, PickedIndex, PickedSeq, CreatesUnder, NodeOf, Creates, CreatedIndex, NormalizeAffectedNodes;
    var nodes := NormalizeAffectedNodes(items);
    var sources := NodesOfItems(items);
    PickedFromFirst(nodes, t);
    var k: nat :| FirstUsable(nodes, t, k);
    FirstUsableIsExtracted(nodes, t, k);
    i := sources[k];
    CreatesByItem(items[i], nodes[k], t, id);
    forall j: nat, other: string | j < i ensures !CreatesUnder(items[j], t, other) {
      if CreatesUnder(items[j], t, other) {
        CreatingHasNode(items[j], t, other);
        var l :| 0 <= l < |sources| && sources[l] == j;
        assert !Usable(nodes, t, l);
        CreatesByItem(items[j], nodes[l], t, other);
      }
    }
  }

  /**
   * A non-empty id is reported for a type exactly when it is the index of the first item of the metadata that creates
   * an object of the type under a non-empty index; a loan's sequence is that item's.
   */
  lemma IdIsFirstCreatedItems(items: seq<AffectedItem>, t: ObjectType, id: string)
    ensures var nodes := NormalizeAffectedNodes(items);
            id != "" && PickedIndex(nodes, t) == Some(id)
            <==> exists i: nat ::
                   && i < |items| && FirstCreated(items, t, id, i) && items[i].created.Some?
                   && (t == Loan ==> PickedSeq(nodes) == match items[i].created.value.newFields
                                                         case Some(f) => f.loanSeq
                                                         case None => None)
  {
    hide PickedIndex, PickedSeq, FirstCreated, NormalizeAffectedNodes;
    if id != "" && PickedIndex(NormalizeAffectedNodes(items), t) == Some(id) {
      var i := ReportedFromFirstItem(items, t, id);
      InRange(items, t, id, i);
      FirstItemDecides(items, t, id, i);
    }
    if i: nat :| FirstCreated(items, t, id, i) {
      FirstItemDecides(items, t, id, i);
    }
  }

  lemma InRange(items: seq<AffectedItem>, t: ObjectType, id: string, i: nat)
    requires FirstCreated(items, t, id, i)
    ensures i < |items|
  {
  }

  lemma CreatingHasNode(item: AffectedItem, t: ObjectType, id: string)
    requires CreatesUnder(item, t, id)
    ensures HasNode(item)
  {
  }

  lemma PickedFromFirst(nodes: seq<Node>, t: ObjectType)
    requires Truthy(PickedIndex(nodes, t))
    ensures exists k: nat :: FirstUsable(nodes, t, k)
  {
    PicksFirstUsable(nodes, t);
  }

  lemma SeqOfItem(item: AffectedItem, nodes: seq<Node>, t: ObjectType, k: nat)
    requires FirstUsable(nodes, t, k) && NodeOf(item, nodes[k])
    ensures item.created.Some?
    ensures t == Loan ==> PickedSeq(nodes) == match item.created.value.newFields case Some(f) => f.loanSeq case None => None
  {
    FirstUsableIsExtracted(nodes, t, k);
  }
}
