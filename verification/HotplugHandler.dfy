/** The unplug branch of the hotplug handler, over the device it drives. */
module HotplugHandler {
  import opened DisplayModes
  import opened DrmResources
  import opened CrtcAllocation
  import opened UnplugTheorems
  import opened DrmDevice

  class DrmHotplugHandler {
    const drm: Device

    constructor (drm: Device)
      ensures this.drm == drm
    {
      this.drm := drm;
    }

    /** Reading the connector's modes again finds it disconnected. */
    method NoteDisconnected(k: DrmConnector)
      requires drm.Valid() && k in drm.connectors
      modifies k`connected
      ensures k in old(drm.S()).attr && drm.S() == SetConnected(old(drm.S()), k, false)
    {
      hide WellFormed, Device.Displays, Device.CrtcsOf, Device.EncodersOf, Device.Mirrors, Device.Attrs, Device.BoardOf;
      drm.FieldsAre(k);
      drm.Disconnect(k);
    }

    /** The last external of a group whose primary is already out: the primary is released too. */
    method FollowPrimary(id: int) returns (r: int)
      requires drm.Valid()
      modifies drm.connectors, drm.crtcs, drm.planeGroups
      ensures drm.Valid() && drm.S() == FollowUp(old(drm.S()), id) && r == 0
    {
      hide WellFormed, ReleaseMirror, ReleaseNormal;
      ghost var s := drm.S();
      OwnerFinds(s, id);
      r := 0;
      if id > 0 {
        var p := drm.GetConnectorForDisplay(id);
        if p != null {
          drm.FieldsAre(p);
          drm.MirrorIs(p);
          if !p.plugged && !p.mirrorMode {
            r := drm.ReleaseDpyRes(id);
          }
        }
      }
    }

    method HandleUnplugEvent(d: int) returns (r: int)
      requires drm.Valid()
      modifies drm.connectors, drm.crtcs, drm.planeGroups
      ensures drm.Valid() && drm.S() == HandleUnplug(old(drm.S()), d)
      ensures r == 0 <==> Owner(old(drm.S()), d) != null
    {
      hide WellFormed, Release, FollowUp, Owner, Device.S;
      ghost var s := drm.S();
      OwnerFinds(s, d);
      var k := drm.GetConnectorForDisplay(d);
      if k == null {
        return -1;
      }
      drm.FieldsAre(k);
      Recorded(s, k);
      drm.MirrorIs(k);
      AttributesShape(s, k, s.attr[k].(connected := false));
      ghost var s1 := SetConnected(s, k, false);
      ReleaseShape(s1, k.display);
      var external, primaryId := k.mirrorMode && !k.mirrorPrimary, k.mirrorPrimaryId;
      NoteDisconnected(k);
      r := drm.ReleaseDpyRes(k.display);
      if external {
        r := FollowPrimary(primaryId);
      }
      return 0;
    }
  }
}
