/**
 * Client scenarios of the viewer model, using only the contracts of its
 * operations: the three-device walkthrough (load out of order, select,
 * delete) and what a repeated emission of the device stream leaves behind.
 */
module Scenarios {
  import opened Wrappers
  import opened Layout
  import opened Devices
  import opened Registry
  import opened Viewer

  /** The first emission of three devices a, b, c: three loads in flight, no node yet. */
  method EmitThree(a: Device, b: Device, c: Device) returns (v: DeviceViewer)
    ensures fresh(v) && v.Valid() && v.animations == [] && v.models == [] && v.nextUid == 0
    ensures v.inFlight == [LoadRequest(a, 0), LoadRequest(b, 1), LoadRequest(c, 2)]
  {
    v := new DeviceViewer();
    v.OnDevices([a, b, c]);
  }

  /** The loads of a, b, c complete out of order (c, then a by the fallback, then b): the nodes stand at slots 3, -3 and 0. */
  method LoadThree(a: Device, b: Device, c: Device) returns (v: DeviceViewer)
    ensures fresh(v) && v.Valid() && v.animations == []
    ensures v.models == [Node(0, c.id, Vec3(3, 0, 0), Loaded), Node(1, a.id, Vec3(-3, 0, 0), Fallback), Node(2, b.id, Vec3(0, 0, 0), Loaded)]
  {
    v := EmitThree(a, b, c);
    var nc := Node(0, c.id, Vec3(3, 0, 0), Loaded);
    assert Placed(LoadRequest(c, 2), 0, true) == Some(nc);
    v.Complete(2, true);
    assert v.models == [nc] && v.nextUid == 1;
    assert v.inFlight == [LoadRequest(a, 0), LoadRequest(b, 1)];
    CompleteRest(v, a, b, nc);
  }

  /** The remaining two loads of the walkthrough: a falls back to the cube, b loads. */
  method CompleteRest(v: DeviceViewer, a: Device, b: Device, nc: Node)
    requires v.Valid() && v.animations == [] && v.models == [nc] && v.nextUid == 1
    requires v.inFlight == [LoadRequest(a, 0), LoadRequest(b, 1)]
    modifies v
    ensures v.Valid() && v.animations == []
    ensures v.models == [nc, Node(1, a.id, Vec3(-3, 0, 0), Fallback), Node(2, b.id, Vec3(0, 0, 0), Loaded)]
  {
    var na := Node(1, a.id, Vec3(-3, 0, 0), Fallback);
    assert Placed(LoadRequest(a, 0), 1, false) == Some(na);
    v.Complete(0, false);
    assert v.models == [nc, na] && v.nextUid == 2;
    assert v.inFlight == [LoadRequest(b, 1)];
    assert Placed(LoadRequest(b, 1), 2, true) == Some(Node(2, b.id, Vec3(0, 0, 0), Loaded));
    v.Complete(0, true);
  }

  /** With three devices a, b, c loaded as above, selecting b aims the camera at (0, 1, 3), looking at the origin. */
  method SelectAfterLoad() returns (pose: Pose)
    ensures pose == Pose(Vec3(0, 1, 3), Vec3(0, 0, 0))
  {
    var b := Device("b", "Probe", "Sensor", "Idle", "/models/b.glb");
    var v := LoadThree(Device("a", "Pump", "Actuator", "Active", "/models/a.glb"), b,
                       Device("c", "Panel", "Monitor", "Active", "/models/c.glb"));
    WalkthroughRegistry(v.models);
    pose := SelectMiddle(v, b);
  }

  /** With three devices a, b, c loaded as above, deleting a leaves the nodes of b and c. */
  method DeleteAfterLoad() returns (remaining: multiset<string>)
    ensures remaining == multiset{"b", "c"}
  {
    var a := Device("a", "Pump", "Actuator", "Active", "/models/a.glb");
    var v := LoadThree(a, Device("b", "Probe", "Sensor", "Idle", "/models/b.glb"),
                       Device("c", "Panel", "Monitor", "Active", "/models/c.glb"));
    WalkthroughRegistry(v.models);
    remaining := DeleteFirstLoaded(v, a);
  }

  /** The registry the walkthrough loads: tags c, a, b, so a is found second and b third. */
  lemma {:induction false} WalkthroughRegistry(ms: seq<Node>)
    requires ms == [Node(0, "c", Vec3(3, 0, 0), Loaded), Node(1, "a", Vec3(-3, 0, 0), Fallback), Node(2, "b", Vec3(0, 0, 0), Loaded)]
    ensures Tags(ms) == ["c", "a", "b"] && multiset(Tags(ms)) - multiset{"a"} == multiset{"b", "c"}
    ensures FindFirst(ms, "a") == Some(1) && FindFirst(ms, "b") == Some(2)
    ensures ms[2].position == Vec3(0, 0, 0)
  {
    assert "c" != "a" && "c" != "b" && "a" != "b";
    assert ms[1..][1..] == [ms[2]];
    assert multiset{"c", "a", "b"} - multiset{"a"} == multiset{"b", "c"};
  }

  /** A click on a tag whose first node is at index i aims at that node. */
  lemma {:induction false} ClickOnFound(ms: seq<Node>, id: string, i: nat)
    requires FindFirst(ms, id) == Some(i)
    ensures ClickTargets(ms, id) == [FocusPose(ms[i].position)]
  {
  }

  /** A row click on b, whose node is the third in the registry and stands at the middle slot. */
  method SelectMiddle(v: DeviceViewer, b: Device) returns (pose: Pose)
    requires v.Valid() && v.animations == [] && FindFirst(v.models, b.id) == Some(2)
    requires v.models[2].position == Vec3(0, 0, 0)
    modifies v
    ensures pose == FocusPose(Vec3(0, 0, 0))
    ensures v.Valid() && v.models == old(v.models)
  {
    ClickOnFound(v.models, b.id, 2);
    v.OnRowClick(b);
    pose := v.animations[0];
  }

  /** A confirmed and acknowledged delete of a, whose node is second in the registry. */
  method DeleteFirstLoaded(v: DeviceViewer, a: Device) returns (remaining: multiset<string>)
    requires v.Valid() && FindFirst(v.models, a.id).Some?
    requires multiset(Tags(v.models)) - multiset{a.id} == multiset{"b", "c"}
    modifies v
    ensures remaining == multiset{"b", "c"}
  {
    v.DeleteDevice(a, true, true);
    remaining := multiset(Tags(v.models));
  }

  /** Two emissions of the same one-device list, each load completing before the next emission. */
  method LoadTwice(a: Device) returns (v: DeviceViewer)
    ensures fresh(v) && v.Valid() && v.inFlight == []
    ensures Tags(v.models) == [a.id, a.id]
  {
    v := new DeviceViewer();
    v.OnDevices([a]);
    assert v.inFlight == [LoadRequest(a, 0)];
    v.Complete(0, true);
    v.OnDevices([a]);
    assert v.inFlight == [LoadRequest(a, 0)];
    v.Complete(0, false);
  }

  /**
   * A second emission of the same list loads every device again, so a
   * confirmed delete removes only the first of the two nodes and the device
   * stays visible; a load that lands after the delete adds a node for the
   * deleted device as well.
   */
  method RepeatedEmission() returns (afterDelete: multiset<string>, afterLateLoad: multiset<string>)
    ensures afterDelete == multiset{"a"}
    ensures afterLateLoad == multiset{"a", "a"}
  {
    var a := Device("a", "Pump", "Actuator", "Active", "/models/a.glb");
    var v := LoadTwice(a);
    v.OnDevices([a]);
    assert v.inFlight == [LoadRequest(a, 0)];
    assert FindFirst(v.models, "a") == Some(0);
    v.DeleteDevice(a, true, true);
    afterDelete := multiset(Tags(v.models));
    assert multiset{"a", "a"} - multiset{"a"} == multiset{"a"};
    ghost var before := v.models;
    v.Complete(0, true);
    assert Tags(v.models) == Tags(before) + ["a"];
    afterLateLoad := multiset(Tags(v.models));
  }
}
