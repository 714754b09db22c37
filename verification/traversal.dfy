/** The pre-order walk over every window's view tree that classifies leaves and
    fills the per-kind buckets, and what the resulting fill response contains. */
module Traversal {
  import opened Optional
  import opened AutofillType
  import opened Classifier
  import opened Response

  /** The walk as the source performs it: a childless node is classified and
      recorded, then the children are walked in index order. */
  function TraverseView(node: ViewNode, r: OurAutofillResponse): OurAutofillResponse
    decreases node, |node.children| + 1
  {
    var r' := if |node.children| == 0
              then AddAutofillResponseForNode(r, node.autofillId, DetermineAutofillType(node))
              else r;
    TraverseChildren(node, 0, r')
  }

  /** Walks `node.children[i..]` in index order. */
  function TraverseChildren(node: ViewNode, i: nat, r: OurAutofillResponse): OurAutofillResponse
    requires i <= |node.children|
    decreases node, |node.children| - i
  {
    if i == |node.children| then r
    else TraverseChildren(node, i + 1, TraverseView(node.children[i], r))
  }

  /** Every node of the tree in pre-order: the node, then each child's subtree in index order. */
  function Preorder(node: ViewNode): seq<ViewNode>
    decreases node, |node.children| + 1
  {
    [node] + PreorderFrom(node, 0)
  }

  function PreorderFrom(node: ViewNode, i: nat): seq<ViewNode>
    requires i <= |node.children|
    decreases node, |node.children| - i
  {
    if i == |node.children| then [] else Preorder(node.children[i]) + PreorderFrom(node, i + 1)
  }

  /** The nodes that are childless, in order. */
  function Childless(nodes: seq<ViewNode>): (r: seq<ViewNode>)
    ensures forall n :: n in r <==> n in nodes && |n.children| == 0
  {
    if |nodes| == 0 then []
    else (if |nodes[0].children| == 0 then [nodes[0]] else []) + Childless(nodes[1..])
  }

  lemma {:induction false} ChildlessAppend(a: seq<ViewNode>, b: seq<ViewNode>)
    ensures Childless(a + b) == Childless(a) + Childless(b)
  {
    if |a| == 0 {
      assert a + b == b;
    } else {
      assert (a + b)[1..] == a[1..] + b;
      ChildlessAppend(a[1..], b);
    }
  }

  /** The leaves the walk classifies, in the order it reaches them. */
  function Leaves(node: ViewNode): seq<ViewNode>
    decreases node, |node.children| + 1
  {
    (if |node.children| == 0 then [node] else []) + LeavesFrom(node, 0)
  }

  function LeavesFrom(node: ViewNode, i: nat): seq<ViewNode>
    requires i <= |node.children|
    decreases node, |node.children| - i
  {
    if i == |node.children| then [] else Leaves(node.children[i]) + LeavesFrom(node, i + 1)
  }

  /** The leaves are exactly the childless nodes of the pre-order, in pre-order. */
  lemma {:induction false} LeavesArePreorderLeaves(node: ViewNode)
    ensures Leaves(node) == Childless(Preorder(node))
    decreases node, |node.children| + 1
  {
    LeavesFromArePreorderLeaves(node, 0);
    ChildlessAppend([node], PreorderFrom(node, 0));
    assert Childless([node]) == (if |node.children| == 0 then [node] else []) by {
      assert [node][1..] == [];
    }
  }

  lemma {:induction false} LeavesFromArePreorderLeaves(node: ViewNode, i: nat)
    requires i <= |node.children|
    ensures LeavesFrom(node, i) == Childless(PreorderFrom(node, i))
    decreases node, |node.children| - i
  {
    if i < |node.children| {
      LeavesArePreorderLeaves(node.children[i]);
      LeavesFromArePreorderLeaves(node, i + 1);
      ChildlessAppend(Preorder(node.children[i]), PreorderFrom(node, i + 1));
    }
  }

  /** A leaf paired with the kind it was classified as. */
  datatype ClassifiedField = ClassifiedField(id: AutofillId, kind: NativeAutofillType)

  /** The leaves paired with their kinds, in the same order. */
  function Classify(leaves: seq<ViewNode>): (fields: seq<ClassifiedField>)
    ensures |fields| == |leaves|
  {
    if |leaves| == 0 then []
    else [ClassifiedField(leaves[0].autofillId, DetermineAutofillType(leaves[0]))] + Classify(leaves[1..])
  }

  /** Field `i` is leaf `i` with the kind the two-stage rule gives it. */
  lemma {:induction false} ClassifyPointwise(leaves: seq<ViewNode>, i: nat)
    requires i < |leaves|
    ensures Classify(leaves)[i] == ClassifiedField(leaves[i].autofillId, DetermineAutofillType(leaves[i]))
  {
    if i > 0 {
      ClassifyPointwise(leaves[1..], i - 1);
    }
  }

  lemma {:induction false} ClassifyAppend(a: seq<ViewNode>, b: seq<ViewNode>)
    ensures Classify(a + b) == Classify(a) + Classify(b)
  {
    if |a| == 0 {
      assert a + b == b;
    } else {
      assert (a + b)[1..] == a[1..] + b;
      ClassifyAppend(a[1..], b);
    }
  }

  /** Recording classified fields one after the other. */
  function Record(fields: seq<ClassifiedField>, r: OurAutofillResponse): OurAutofillResponse {
    if |fields| == 0 then r
    else Record(fields[1..], AddAutofillResponseForNode(r, fields[0].id, fields[0].kind))
  }

  lemma {:induction false} RecordAppend(a: seq<ClassifiedField>, b: seq<ClassifiedField>, r: OurAutofillResponse)
    ensures Record(a + b, r) == Record(b, Record(a, r))
  {
    if |a| == 0 {
      assert a + b == b;
    } else {
      assert (a + b)[1..] == a[1..] + b;
      RecordAppend(a[1..], b, AddAutofillResponseForNode(r, a[0].id, a[0].kind));
    }
  }

  /** The walk classifies and records exactly the leaves of the tree, in pre-order. */
  lemma {:induction false} TraverseViewRecordsLeaves(node: ViewNode, r: OurAutofillResponse)
    ensures TraverseView(node, r) == Record(Classify(Leaves(node)), r)
    decreases node, |node.children| + 1
  {
    var first := if |node.children| == 0 then [node] else [];
    var r' := if |node.children| == 0
              then AddAutofillResponseForNode(r, node.autofillId, DetermineAutofillType(node))
              else r;
    assert Record(Classify(first), r) == r' by {
      if |node.children| == 0 {
        assert first[1..] == [];
        assert Classify(first)[1..] == [];
      }
    }
    TraverseChildrenRecordsLeaves(node, 0, r');
    ClassifyAppend(first, LeavesFrom(node, 0));
    RecordAppend(Classify(first), Classify(LeavesFrom(node, 0)), r);
  }

  lemma {:induction false} TraverseChildrenRecordsLeaves(node: ViewNode, i: nat, r: OurAutofillResponse)
    requires i <= |node.children|
    ensures TraverseChildren(node, i, r) == Record(Classify(LeavesFrom(node, i)), r)
    decreases node, |node.children| - i
  {
    if i < |node.children| {
      TraverseViewRecordsLeaves(node.children[i], r);
      TraverseChildrenRecordsLeaves(node, i + 1, TraverseView(node.children[i], r));
      ClassifyAppend(Leaves(node.children[i]), LeavesFrom(node, i + 1));
      RecordAppend(Classify(Leaves(node.children[i])), Classify(LeavesFrom(node, i + 1)), r);
    }
  }

  /** The leaves of all windows, window by window in index order. */
  function WindowLeaves(windows: seq<ViewNode>): seq<ViewNode> {
    if |windows| == 0 then []
    else WindowLeaves(windows[..|windows| - 1]) + Leaves(windows[|windows| - 1])
  }

  /** Walks the root of every window, in index order, into one set of buckets. */
  method ParseStructure(windows: seq<ViewNode>) returns (r: OurAutofillResponse)
    ensures r == Record(Classify(WindowLeaves(windows)), EmptyResponse)
  {
    r := EmptyResponse;
    var i := 0;
    while i < |windows|
      invariant 0 <= i <= |windows|
      invariant r == Record(Classify(WindowLeaves(windows[..i])), EmptyResponse)
    {
      assert windows[..i + 1][..i] == windows[..i];
      TraverseViewRecordsLeaves(windows[i], r);
      ClassifyAppend(WindowLeaves(windows[..i]), Leaves(windows[i]));
      RecordAppend(Classify(WindowLeaves(windows[..i])), Classify(Leaves(windows[i])), EmptyResponse);
      r := TraverseView(windows[i], r);
      i := i + 1;
    }
    assert windows[..i] == windows;
  }

  /** Reference definition of a bucket: the candidates of every field of kind `k`,
      concatenated in field order. */
  function KindResponses(fields: seq<ClassifiedField>, k: NativeAutofillType): seq<SingleFieldResponse> {
    if |fields| == 0 then []
    else
      (if fields[0].kind == k then ResponsesFor(fields[0].id, k) else [])
      + KindResponses(fields[1..], k)
  }

  /** The last element of a sequence, if any. */
  function Last<T>(s: seq<T>): Option<T> {
    if |s| == 0 then None else Some(s[|s| - 1])
  }

  /** Recording fields appends each list kind's candidates in field order. */
  lemma {:induction false} RecordBucket(fields: seq<ClassifiedField>, r: OurAutofillResponse, k: NativeAutofillType)
    requires IsListKind(k)
    ensures Bucket(Record(fields, r), k) == Bucket(r, k) + KindResponses(fields, k)
  {
    if |fields| > 0 {
      var r1 := AddAutofillResponseForNode(r, fields[0].id, fields[0].kind);
      RecordBucket(fields[1..], r1, k);
    }
  }

  /** Recording fields leaves the full-name slot holding the last full-name
      candidate, or its old value when there was none. */
  lemma {:induction false} RecordFullName(fields: seq<ClassifiedField>, r: OurAutofillResponse)
    ensures Record(fields, r).fullName
            == (if KindResponses(fields, NameFull) == [] then r.fullName else Last(KindResponses(fields, NameFull)))
  {
    if |fields| > 0 {
      var r1 := AddAutofillResponseForNode(r, fields[0].id, fields[0].kind);
      RecordFullName(fields[1..], r1);
      var head := if fields[0].kind == NameFull then ResponsesFor(fields[0].id, NameFull) else [];
      var tail := KindResponses(fields[1..], NameFull);
      assert KindResponses(fields, NameFull) == head + tail;
      if tail == [] {
        assert head + tail == head;
      } else {
        assert Last(head + tail) == Last(tail);
      }
    }
  }

  /** Reference definition of the datasets: the buckets in response order, each
      built directly from the classified fields. */
  function ExpectedDatasets(fields: seq<ClassifiedField>): seq<SingleFieldResponse> {
    KindResponses(fields, EmailAddress) + KindResponses(fields, CreditCardNumber)
      + Last(KindResponses(fields, NameFull)).ToSeq() + KindResponses(fields, CreditCardExpiry)
      + KindResponses(fields, CreditCardSecurityCode) + KindResponses(fields, TelephoneFull)
  }

  /** The response assembled from the buckets after recording `fields` into
      empty buckets is the reference one. */
  lemma AssembleRecord(fields: seq<ClassifiedField>)
    ensures Assemble(Record(fields, EmptyResponse)) == ExpectedDatasets(fields)
    ensures NothingCollected(Record(fields, EmptyResponse)) <==> ExpectedDatasets(fields) == []
  {
    var r := Record(fields, EmptyResponse);
    RecordBucket(fields, EmptyResponse, EmailAddress);
    assert r.emailAddress == KindResponses(fields, EmailAddress);
    RecordBucket(fields, EmptyResponse, CreditCardNumber);
    assert r.creditCardNumber == KindResponses(fields, CreditCardNumber);
    RecordBucket(fields, EmptyResponse, CreditCardExpiry);
    assert r.creditCardExpiry == KindResponses(fields, CreditCardExpiry);
    RecordBucket(fields, EmptyResponse, CreditCardSecurityCode);
    assert r.creditCardSecurityCode == KindResponses(fields, CreditCardSecurityCode);
    RecordBucket(fields, EmptyResponse, TelephoneFull);
    assert r.telephoneNumber == KindResponses(fields, TelephoneFull);
    RecordFullName(fields, EmptyResponse);
    assert r.fullName == Last(KindResponses(fields, NameFull));
  }

  /** No candidates for any kind exactly when every field is `Unknown`. */
  lemma {:induction false} NothingCollectedIffAllUnknown(fields: seq<ClassifiedField>)
    ensures ExpectedDatasets(fields) == [] <==> forall i :: 0 <= i < |fields| ==> fields[i].kind == Unknown
  {
    if |fields| > 0 {
      NothingCollectedIffAllUnknown(fields[1..]);
      var k := fields[0].kind;
      if k != Unknown {
        assert |ResponsesFor(fields[0].id, k)| > 0;
        assert KindResponses(fields, k) != [];
      }
      assert forall i :: 1 <= i < |fields| ==> fields[i] == fields[1..][i - 1];
    }
  }

  /** Handles a fill request: walks every window and builds the response.  The
      result lists every leaf's candidates bucket by bucket, and is no response
      exactly when every leaf is `Unknown`. */
  method FillRequest(windows: seq<ViewNode>) returns (response: Option<seq<SingleFieldResponse>>)
    ensures var expected := ExpectedDatasets(Classify(WindowLeaves(windows)));
            response == if expected == [] then None else Some(expected)
    ensures var fields := Classify(WindowLeaves(windows));
            response.None? <==> forall i :: 0 <= i < |fields| ==> fields[i].kind == Unknown
  {
    var parsed := ParseStructure(windows);
    var fields := Classify(WindowLeaves(windows));
    AssembleRecord(fields);
    response := BuildFillResponse(parsed);
    NothingCollectedIffAllUnknown(fields);
  }

  /** Number of fields classified as `k`. */
  function CountKind(fields: seq<ClassifiedField>, k: NativeAutofillType): nat {
    if |fields| == 0 then 0
    else (if fields[0].kind == k then 1 else 0) + CountKind(fields[1..], k)
  }

  /** Each email field yields two candidates; every other suggestable field one;
      `Unknown` fields none. */
  lemma {:induction false} ResponseCounts(fields: seq<ClassifiedField>, k: NativeAutofillType)
    ensures |KindResponses(fields, k)|
            == (match k case Unknown => 0 case EmailAddress => 2 * CountKind(fields, k) case _ => CountKind(fields, k))
  {
    if |fields| > 0 {
      ResponseCounts(fields[1..], k);
    }
  }

  /** Every candidate in a bucket fills a field classified as the bucket's kind. */
  lemma {:induction false} KindResponsesFromFields(fields: seq<ClassifiedField>, k: NativeAutofillType, e: SingleFieldResponse)
    requires e in KindResponses(fields, k)
    ensures k != Unknown && ValueKind(e.value) == k
    ensures exists i :: 0 <= i < |fields| && fields[i] == ClassifiedField(e.nodeId, k)
  {
    var head := if fields[0].kind == k then ResponsesFor(fields[0].id, k) else [];
    if e in head {
      assert fields[0] == ClassifiedField(e.nodeId, k);
    } else {
      KindResponsesFromFields(fields[1..], k, e);
      var i :| 0 <= i < |fields[1..]| && fields[1..][i] == ClassifiedField(e.nodeId, k);
      assert fields[i + 1] == fields[1..][i];
    }
  }

  /** No spurious kinds: every dataset of the response fills a classified field
      with a value of that field's kind, and none is for `Unknown`. */
  lemma DatasetsComeFromClassifiedFields(fields: seq<ClassifiedField>, e: SingleFieldResponse)
    requires e in ExpectedDatasets(fields)
    ensures ValueKind(e.value) != Unknown
    ensures exists i :: 0 <= i < |fields| && fields[i] == ClassifiedField(e.nodeId, ValueKind(e.value))
  {
    var names := KindResponses(fields, NameFull);
    if e in Last(names).ToSeq() {
      assert e in names;
      KindResponsesFromFields(fields, NameFull, e);
    } else if e in KindResponses(fields, EmailAddress) {
      KindResponsesFromFields(fields, EmailAddress, e);
    } else if e in KindResponses(fields, CreditCardNumber) {
      KindResponsesFromFields(fields, CreditCardNumber, e);
    } else if e in KindResponses(fields, CreditCardExpiry) {
      KindResponsesFromFields(fields, CreditCardExpiry, e);
    } else if e in KindResponses(fields, CreditCardSecurityCode) {
      KindResponsesFromFields(fields, CreditCardSecurityCode, e);
    } else {
      KindResponsesFromFields(fields, TelephoneFull, e);
    }
  }

  /** The full-name slot ends up holding the candidate of the LAST full-name
      field; its label is its value. */
  lemma {:induction false} LastFullNameWins(fields: seq<ClassifiedField>, i: nat, r: OurAutofillResponse)
    requires i < |fields| && fields[i].kind == NameFull
    requires forall j :: i < j < |fields| ==> fields[j].kind != NameFull
    ensures Record(fields, r).fullName
            == Some(SingleFieldResponse(fields[i].id, FullNameValue, FullNameValue))
  {
    var r1 := AddAutofillResponseForNode(r, fields[0].id, fields[0].kind);
    if i == 0 {
      assert forall j :: 0 <= j < |fields[1..]| ==> fields[1..][j] == fields[j + 1];
      NoFullNameKeepsSlot(fields[1..], r1);
    } else {
      assert fields[1..][i - 1] == fields[i];
      assert forall j :: i - 1 < j < |fields[1..]| ==> fields[1..][j] == fields[j + 1];
      LastFullNameWins(fields[1..], i - 1, r1);
    }
  }

  /** Fields of other kinds never touch the full-name slot. */
  lemma {:induction false} NoFullNameKeepsSlot(fields: seq<ClassifiedField>, r: OurAutofillResponse)
    requires forall j :: 0 <= j < |fields| ==> fields[j].kind != NameFull
    ensures Record(fields, r).fullName == r.fullName
  {
    if |fields| > 0 {
      var r1 := AddAutofillResponseForNode(r, fields[0].id, fields[0].kind);
      assert forall j :: 0 <= j < |fields[1..]| ==> fields[1..][j] == fields[j + 1];
      NoFullNameKeepsSlot(fields[1..], r1);
    }
  }
}
