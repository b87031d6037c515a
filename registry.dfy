/**
 * The device-to-node registry as plain sequence operations: the scene nodes
 * the loader creates, `models.find` by device tag, and
 * `models.filter(m => m !== model)`, which drops one node by object identity.
 */
module Registry {
  import opened Wrappers
  import opened Layout

  /** A loaded glTF scene, or the green unit cube that replaces a failed load. */
  datatype Kind = Loaded | Fallback

  /**
   * A scene node: `uid` stands for the node's object identity (two nodes
   * may agree on every other field), `deviceId` is `userData.deviceId`.
   */
  datatype Node = Node(uid: nat, deviceId: string, position: Vec3, kind: Kind)

  /** No object appears twice in the list. */
  ghost predicate DistinctObjects(ms: seq<Node>) {
    forall i, j :: 0 <= i < j < |ms| ==> ms[i].uid != ms[j].uid
  }

  /** Every node is an object created before `next` and stands at a slot. */
  ghost predicate Placement(ms: seq<Node>, next: nat) {
    forall i :: 0 <= i < |ms| ==> ms[i].uid < next && IsSlot(ms[i].position)
  }

  /** The device tags of the nodes, in list order. */
  function Tags(ms: seq<Node>): (r: seq<string>)
    ensures |r| == |ms|
    ensures forall i :: 0 <= i < |ms| ==> r[i] == ms[i].deviceId
  {
    seq(|ms|, i requires 0 <= i < |ms| => ms[i].deviceId)
  }

  /** The tags of a non-empty list: the head's tag, then the tags of the tail. */
  lemma {:induction false} TagsCons(ms: seq<Node>)
    requires ms != []
    ensures Tags(ms) == [ms[0].deviceId] + Tags(ms[1..])
  {
    assert Tags(ms)[1..] == Tags(ms[1..]);
  }

  /** `models.find(m => m.userData.deviceId === id)`, as the index of the first node with that tag. */
  function FindFirst(ms: seq<Node>, id: string): (r: Option<nat>)
    ensures r.Some? ==> r.value < |ms| && ms[r.value].deviceId == id
    ensures r.Some? ==> forall j :: 0 <= j < r.value ==> ms[j].deviceId != id
    ensures r.None? <==> id !in Tags(ms)
  {
    if ms == [] then None
    else if ms[0].deviceId == id then Some(0)
    else
      TagsCons(ms);
      match FindFirst(ms[1..], id)
      case None => None
      case Some(k) =>
        NoEarlierTag(ms, id, k);
        Some(k + 1)
  }

  /** If the head lacks the tag and the first k nodes of the tail lack it, the first k + 1 nodes lack it. */
  lemma {:induction false} NoEarlierTag(ms: seq<Node>, id: string, k: nat)
    requires k < |ms| - 1 && ms[0].deviceId != id
    requires forall j :: 0 <= j < k ==> ms[1..][j].deviceId != id
    ensures forall j :: 0 <= j < k + 1 ==> ms[j].deviceId != id
  {
    forall j | 0 <= j < k + 1 ensures ms[j].deviceId != id {
      if j > 0 {
        assert ms[j] == ms[1..][j - 1];
      }
    }
  }

  /** `models.filter(m => m !== model)` where `obj` is the identity of `model`. */
  function Without(ms: seq<Node>, obj: nat): (r: seq<Node>)
    ensures |r| <= |ms|
    ensures forall n :: n in r <==> n in ms && n.uid != obj
  {
    if ms == [] then []
    else if ms[0].uid == obj then Without(ms[1..], obj)
    else [ms[0]] + Without(ms[1..], obj)
  }

  /** Filtering out an object held by no node leaves the list as it is. */
  lemma {:induction false} WithoutAbsent(ms: seq<Node>, obj: nat)
    requires forall j :: 0 <= j < |ms| ==> ms[j].uid != obj
    ensures Without(ms, obj) == ms
  {
    if ms != [] {
      WithoutAbsent(ms[1..], obj);
      assert [ms[0]] + ms[1..] == ms;
    }
  }

  lemma {:induction false} DistinctTail(ms: seq<Node>)
    requires ms != [] && DistinctObjects(ms)
    ensures DistinctObjects(ms[1..])
    ensures forall j :: 1 <= j < |ms| ==> ms[j].uid != ms[0].uid
  {
    var tail := ms[1..];
    forall a, b | 0 <= a < b < |tail| ensures tail[a].uid != tail[b].uid {
      assert tail[a] == ms[a + 1] && tail[b] == ms[b + 1];
    }
  }

  /**
   * When objects are distinct, filtering out the object of node i removes
   * exactly that node and keeps every other node in its order.
   */
  lemma {:induction false} WithoutOne(ms: seq<Node>, i: nat)
    requires i < |ms| && DistinctObjects(ms)
    ensures Without(ms, ms[i].uid) == ms[..i] + ms[i + 1..]
  {
    DistinctTail(ms);
    var tail := ms[1..];
    if i == 0 {
      WithoutAbsent(tail, ms[0].uid);
    } else {
      assert tail[i - 1] == ms[i];
      WithoutOne(tail, i - 1);
      assert Without(ms, ms[i].uid) == [ms[0]] + (tail[..i - 1] + tail[i..]);
      HeadAndTail(ms, i);
    }
  }

  /** Cutting out node i, for i past the head, is the head followed by the tail with its node i - 1 cut out. */
  lemma {:induction false} HeadAndTail(ms: seq<Node>, i: nat)
    requires 0 < i < |ms|
    ensures ms[..i] + ms[i + 1..] == [ms[0]] + (ms[1..][..i - 1] + ms[1..][i..])
  {
    assert ms[..i] == [ms[0]] + ms[1..][..i - 1];
    assert ms[i + 1..] == ms[1..][i..];
  }

  /** Removing node i takes one copy of its tag out of the registry and no other tag. */
  lemma {:induction false} RemovingOneTag(ms: seq<Node>, i: nat)
    requires i < |ms|
    ensures multiset(Tags(ms[..i] + ms[i + 1..])) == multiset(Tags(ms)) - multiset{ms[i].deviceId}
  {
    var t, rest := Tags(ms), ms[..i] + ms[i + 1..];
    assert t == t[..i] + [ms[i].deviceId] + t[i + 1..];
    assert Tags(rest) == t[..i] + t[i + 1..];
  }

  /** After removing node i, node k of the rest is node k or k + 1 of the original. */
  lemma {:induction false} RemovingOneIndex(ms: seq<Node>, i: nat)
    requires i < |ms|
    ensures var rest := ms[..i] + ms[i + 1..];
      && |rest| == |ms| - 1
      && (forall k :: 0 <= k < i ==> rest[k] == ms[k])
      && (forall k :: i <= k < |rest| ==> rest[k] == ms[k + 1])
  {
  }

  /** Removing node i takes one copy of it out of the multiset of nodes. */
  lemma {:induction false} RemovingOneNode(ms: seq<Node>, i: nat)
    requires i < |ms|
    ensures multiset(ms[..i] + ms[i + 1..]) == multiset(ms) - multiset{ms[i]}
  {
    assert ms == ms[..i] + [ms[i]] + ms[i + 1..];
  }

  /** Removing a node keeps the other nodes distinct objects. */
  lemma {:induction false} RemovingKeepsDistinct(ms: seq<Node>, i: nat)
    requires i < |ms| && DistinctObjects(ms)
    ensures DistinctObjects(ms[..i] + ms[i + 1..])
  {
    var rest := ms[..i] + ms[i + 1..];
    RemovingOneIndex(ms, i);
    forall a, b | 0 <= a < b < |rest| ensures rest[a].uid != rest[b].uid {
      var a', b' := if a < i then a else a + 1, if b < i then b else b + 1;
      assert rest[a] == ms[a'] && rest[b] == ms[b'];
    }
  }

  /** Removing a node keeps the others created before `next` and at their slots. */
  lemma {:induction false} RemovingKeepsPlacement(ms: seq<Node>, i: nat, next: nat)
    requires i < |ms| && Placement(ms, next)
    ensures Placement(ms[..i] + ms[i + 1..], next)
  {
    var rest := ms[..i] + ms[i + 1..];
    RemovingOneIndex(ms, i);
    forall k | 0 <= k < |rest| ensures rest[k].uid < next && IsSlot(rest[k].position) {
      assert rest[k] == ms[if k < i then k else k + 1];
    }
  }
}
