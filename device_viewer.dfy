/**
 * `DeviceViewerComponent` as a class over its mutable state: the device
 * list, the `models` registry, the device nodes of the scene, the loads the
 * loader has in flight, and the camera transitions row clicks have started.
 *
 * The loader is the environment: `OnDevices` issues one load per device,
 * and `Complete` delivers the outcome of any one in-flight load, in any
 * order the environment chooses.
 */
module Viewer {
  import opened Wrappers
  import opened Layout
  import opened Devices
  import opened Registry

  /** One `loader.load` call whose callback has not run yet: the device and list index its closure captured. */
  datatype LoadRequest = LoadRequest(device: Device, index: nat)

  /** The loads `loadModels` issues for a device list: one per device, in list order. */
  function Requests(ds: seq<Device>): (r: seq<LoadRequest>)
    ensures |r| == |ds|
    ensures forall i :: 0 <= i < |ds| ==> r[i] == LoadRequest(ds[i], i)
  {
    seq(|ds|, i requires 0 <= i < |ds| => LoadRequest(ds[i], i))
  }

  /**
   * The node a load callback adds, whichever callback runs: tagged with the
   * device's id and placed at its slot, a glTF scene on success and the
   * fallback cube on failure.  Without a slot (index 3 and beyond) the
   * position copy from `undefined` throws before anything is added.
   */
  function Placed(req: LoadRequest, uid: nat, succeeded: bool): (r: Option<Node>)
    ensures r.Some? <==> req.index < 3
    ensures r.Some? ==> r.value.uid == uid && r.value.deviceId == req.device.id
    ensures r.Some? ==> Slot(req.index) == Some(r.value.position)
    ensures r.Some? ==> (r.value.kind == Loaded <==> succeeded)
  {
    match Slot(req.index)
    case None => None
    case Some(p) => Some(Node(uid, req.device.id, p, if succeeded then Loaded else Fallback))
  }

  /** Success and fallback add the same node but for its kind. */
  lemma OutcomeOnlyDecidesKind(req: LoadRequest, uid: nat)
    ensures Placed(req, uid, true).Some? == Placed(req, uid, false).Some?
    ensures Placed(req, uid, true).Some? ==>
      Placed(req, uid, false).value == Placed(req, uid, true).value.(kind := Fallback)
  {
  }

  /** How many of the loads will add a node when they complete: those whose index has a slot. */
  function Landing(rs: seq<LoadRequest>): (r: nat)
    ensures r <= |rs|
  {
    if rs == [] then 0 else (if Slot(rs[0].index).Some? then 1 else 0) + Landing(rs[1..])
  }

  lemma {:induction false} LandingAppend(a: seq<LoadRequest>, b: seq<LoadRequest>)
    ensures Landing(a + b) == Landing(a) + Landing(b)
  {
    if a != [] {
      assert (a + b)[1..] == a[1..] + b;
      LandingAppend(a[1..], b);
    } else {
      assert a + b == b;
    }
  }

  /** Taking load k out of the in-flight list lowers the count by one exactly when load k has a slot. */
  lemma {:induction false} LandingRemove(rs: seq<LoadRequest>, k: nat)
    requires k < |rs|
    ensures Landing(rs[..k] + rs[k + 1..]) + (if rs[k].index < 3 then 1 else 0) == Landing(rs)
  {
    assert rs == rs[..k] + ([rs[k]] + rs[k + 1..]);
    LandingAppend(rs[..k], [rs[k]] + rs[k + 1..]);
    LandingAppend(rs[..k], rs[k + 1..]);
    assert ([rs[k]] + rs[k + 1..])[1..] == rs[k + 1..];
  }

  /** Of the loads for a device list, the first three land and the rest do not. */
  lemma {:induction false} LandingRequests(ds: seq<Device>)
    ensures Landing(Requests(ds)) == if |ds| <= 3 then |ds| else 3
  {
    var rs := Requests(ds);
    var n := 0;
    while n < |ds|
      invariant 0 <= n <= |ds|
      invariant Landing(rs[..n]) == if n <= 3 then n else 3
    {
      assert rs[..n + 1] == rs[..n] + [rs[n]];
      LandingAppend(rs[..n], [rs[n]]);
      n := n + 1;
    }
    assert rs[..|ds|] == rs;
  }

  /**
   * The camera transitions a row click starts: one toward the first node
   * tagged with the id, none when no node has that tag.
   */
  function ClickTargets(ms: seq<Node>, id: string): (r: seq<Pose>)
    ensures |r| <= 1
    ensures r == [] <==> id !in Tags(ms)
    ensures r != [] ==> exists i :: FindFirst(ms, id) == Some(i) && r == [FocusPose(ms[i].position)]
  {
    match FindFirst(ms, id)
    case None => []
    case Some(i) => [FocusPose(ms[i].position)]
  }

  /** The scene and the registry hold the same nodes, each a distinct object standing at a slot. */
  ghost predicate Consistent(scene: multiset<Node>, models: seq<Node>, next: nat) {
    && scene == multiset(models)
    && DistinctObjects(models)
    && Placement(models, next)
  }

  /** Taking node i out of both the scene and the registry keeps them consistent. */
  lemma {:induction false} ConsistentRemove(scene: multiset<Node>, ms: seq<Node>, next: nat, i: nat)
    requires Consistent(scene, ms, next) && i < |ms|
    ensures Consistent(scene - multiset{ms[i]}, ms[..i] + ms[i + 1..], next)
  {
    RemovingOneNode(ms, i);
    RemovingKeepsDistinct(ms, i);
    RemovingKeepsPlacement(ms, i, next);
  }

  /** Adding a fresh node at a slot to both the scene and the registry keeps them consistent. */
  lemma {:induction false} ConsistentAdd(scene: multiset<Node>, ms: seq<Node>, next: nat, n: Node)
    requires Consistent(scene, ms, next) && n.uid == next && IsSlot(n.position)
    ensures Consistent(scene + multiset{n}, ms + [n], next + 1)
  {
    var ms' := ms + [n];
    forall a, b | 0 <= a < b < |ms'| ensures ms'[a].uid != ms'[b].uid {
      if b < |ms| {
        assert ms'[a] == ms[a] && ms'[b] == ms[b];
      } else {
        assert ms'[a] == ms[a] && ms'[b] == n;
      }
    }
    forall k | 0 <= k < |ms'| ensures ms'[k].uid < next + 1 && IsSlot(ms'[k].position) {
      if k < |ms| {
        assert ms'[k] == ms[k];
      }
    }
  }

  class DeviceViewer {
    /** The last device list the store emitted. */
    var devices: seq<Device>
    /** The `models` registry, in push order. */
    var models: seq<Node>
    /** The device nodes added to the scene (its lights are not modelled). */
    var scene: multiset<Node>
    /** Loads issued whose callback has not run. */
    var inFlight: seq<LoadRequest>
    /** The identity the next created node gets. */
    var nextUid: nat
    /** Target poses of the camera transitions started so far; none is ever cancelled. */
    var animations: seq<Pose>

    /** The scene and the registry hold the same nodes, each a distinct object standing at a slot. */
    ghost predicate Valid()
      reads this
    {
      Consistent(scene, models, nextUid)
    }

    /** Nodes still to come from the loads in flight. */
    ghost function Outstanding(): nat
      reads this
    {
      Landing(inFlight)
    }

    constructor ()
      ensures Valid()
      ensures devices == [] && models == [] && scene == multiset{} && inFlight == [] && animations == []
      ensures nextUid == 0
    {
      devices, models, scene := [], [], multiset{};
      inFlight, nextUid, animations := [], 0, [];
    }

    /**
     * The device-stream subscription: store the list and load a model for
     * every device.  Nothing is cleared, so each emission adds new loads on
     * top of the nodes already present.
     */
    method OnDevices(ds: seq<Device>)
      requires Valid()
      modifies this
      ensures Valid()
      ensures devices == ds && inFlight == old(inFlight) + Requests(ds)
      ensures models == old(models) && scene == old(scene)
      ensures nextUid == old(nextUid) && animations == old(animations)
      ensures Outstanding() == old(Outstanding()) + (if |ds| <= 3 then |ds| else 3)
    {
      devices := ds;
      LoadModels();
      LandingAppend(old(inFlight), Requests(ds));
      LandingRequests(ds);
    }

    /** `loadModels`: one `loader.load` per device, capturing the device and its index. */
    method LoadModels()
      requires Valid()
      modifies this`inFlight
      ensures Valid()
      ensures inFlight == old(inFlight) + Requests(devices)
    {
      var i := 0;
      while i < |devices|
        invariant 0 <= i <= |devices|
        invariant inFlight == old(inFlight) + Requests(devices)[..i]
      {
        inFlight := inFlight + [LoadRequest(devices[i], i)];
        i := i + 1;
      }
    }

    /**
     * The callback of in-flight load k, with the loader's outcome: the new
     * node, if any, goes into both the scene and the registry.
     */
    method Complete(k: nat, succeeded: bool)
      requires Valid() && k < |inFlight|
      modifies this
      ensures Valid()
      ensures inFlight == old(inFlight[..k] + inFlight[k + 1..])
      ensures var added := Placed(old(inFlight[k]), old(nextUid), succeeded);
        && models == old(models) + (if added.Some? then [added.value] else [])
        && scene == old(scene) + (if added.Some? then multiset{added.value} else multiset{})
        && nextUid == old(nextUid) + (if added.Some? then 1 else 0)
      ensures |models| + Outstanding() == old(|models| + Outstanding())
      ensures devices == old(devices) && animations == old(animations)
    {
      var req := inFlight[k];
      LandingRemove(inFlight, k);
      inFlight := inFlight[..k] + inFlight[k + 1..];
      var added := Placed(req, nextUid, succeeded);
      if added.Some? {
        AddNode(added.value);
      }
    }

    /** `scene.add(model)` and `models.push(model)` for a node just created at a slot. */
    method AddNode(node: Node)
      requires Valid() && node.uid == nextUid && IsSlot(node.position)
      modifies this`models, this`scene, this`nextUid
      ensures Valid()
      ensures models == old(models) + [node] && scene == old(scene) + multiset{node}
      ensures nextUid == old(nextUid) + 1
    {
      ConsistentAdd(scene, models, nextUid, node);
      nextUid := nextUid + 1;
      scene := scene + multiset{node};
      models := models + [node];
    }

    /** `onRowClick`: focus on the first node tagged with the device's id; do nothing when there is none. */
    method OnRowClick(device: Device)
      requires Valid()
      modifies this`animations
      ensures Valid()
      ensures animations == old(animations) + ClickTargets(models, device.id)
      ensures models == old(models) && scene == old(scene)
    {
      var found := FindFirst(models, device.id);
      if found.Some? {
        FocusOnModel(models[found.value]);
      }
    }

    /** `focusOnModel`: start one more camera transition toward the node; the node itself stays put. */
    method FocusOnModel(node: Node)
      modifies this`animations
      ensures animations == old(animations) + [FocusPose(node.position)]
    {
      animations := animations + [FocusPose(node.position)];
    }

    /**
     * `deleteDevice`, from the point where the store's delete has settled:
     * with the user's confirmation and the store's acknowledgement, the first
     * node tagged with the device's id leaves the scene and the registry.
     * A rejected delete ends the method before the lookup.
     */
    method DeleteDevice(device: Device, confirmed: bool, acknowledged: bool)
      requires Valid()
      modifies this`models, this`scene
      ensures Valid()
      ensures var found := FindFirst(old(models), device.id);
        if confirmed && acknowledged && found.Some? then
          && models == old(models[..found.value] + models[found.value + 1..])
          && scene == old(scene) - multiset{old(models[found.value])}
          && |models| == old(|models|) - 1
          && multiset(Tags(models)) == old(multiset(Tags(models))) - multiset{device.id}
        else
          models == old(models) && scene == old(scene)
    {
      if !confirmed || !acknowledged {
        return;
      }
      var found := FindFirst(models, device.id);
      if found.Some? {
        RemovingOneTag(models, found.value);
        RemoveNode(found.value);
      }
    }

    /** `scene.remove(model)` and `models.filter(m => m !== model)` for the node at index i. */
    method RemoveNode(i: nat)
      requires Valid() && i < |models|
      modifies this`models, this`scene
      ensures Valid()
      ensures models == old(models[..i] + models[i + 1..])
      ensures scene == old(scene) - multiset{old(models[i])}
    {
      var node := models[i];
      WithoutOne(models, i);
      ConsistentRemove(scene, models, nextUid, i);
      scene := scene - multiset{node};
      models := Without(models, node.uid);
    }
  }
}
