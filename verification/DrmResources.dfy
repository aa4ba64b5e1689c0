/** The objects the display-resource engine shares: CRTCs, encoders and connectors. */
module DrmResources {
  import opened DisplayModes

  /** The mirror fields of a connector, as a value. */
  datatype Mirror = Mirror(mode: bool, primary: bool, primaryId: int, displays: set<int>) {
    predicate IsPrimary() { mode && primary }
    predicate IsExternal() { mode && !primary }
    function PrimaryId(): int { if mode then primaryId else -1 }
  }

  const NO_MIRROR := Mirror(false, false, -1, {})

  function EnableMirror(m: Mirror, self: int, primaryId: int, mirrorId: int): Mirror {
    if primaryId == self then Mirror(true, true, primaryId, m.displays + {mirrorId})
    else Mirror(true, false, primaryId, {})
  }

  function DisableMirror(m: Mirror, display: int): Mirror {
    if m.primary then
      var rest := m.displays - {display};
      if rest == {} then m.(mode := false, primary := false, displays := rest)
      else m.(displays := rest)
    else m.(mode := false)
  }

  /** What else about a connector changes: its connection, hotplug state and modes. */
  datatype Attributes = Attributes(
    connected: bool,
    plugged: bool,
    current: Mode,
    active: Mode,
    best: Mode,
    modes: seq<Mode>,
    raw: seq<Mode>)

  class DrmCrtc {
    const pipe: nat
    const reportsOutputWidth: bool
    const outputWidth: u64
    const outputDclk: u64
    var display: int

    constructor (pipe: nat, reportsOutputWidth: bool, outputWidth: u64, outputDclk: u64)
      ensures this.pipe == pipe && this.reportsOutputWidth == reportsOutputWidth
      ensures this.outputWidth == outputWidth && this.outputDclk == outputDclk
      ensures display == -1
    {
      this.pipe, this.reportsOutputWidth := pipe, reportsOutputWidth;
      this.outputWidth, this.outputDclk := outputWidth, outputDclk;
      display := -1;
    }

    predicate CanBind(d: int)
      reads this
    {
      display == -1 || display == d
    }

    method SetDisplay(d: int)
      modifies `display
      ensures display == d
    {
      display := d;
    }
  }

  class DrmEncoder {
    const possibleCrtcs: seq<DrmCrtc>
    var crtc: DrmCrtc?
    var display: int

    constructor (possibleCrtcs: seq<DrmCrtc>, current: DrmCrtc?)
      ensures this.possibleCrtcs == possibleCrtcs && crtc == current && display == -1
    {
      this.possibleCrtcs := possibleCrtcs;
      crtc, display := current, -1;
    }

    /** Also snapshots the display the CRTC carries at this moment. */
    method SetCrtc(c: DrmCrtc?)
      modifies this
      ensures crtc == c
      ensures display == if c == null then -1 else c.display
    {
      crtc := c;
      if c == null {
        display := -1;
      } else {
        display := c.display;
      }
    }
  }

  class DrmConnector {
    const possibleEncoders: seq<DrmEncoder>
    const display: int
    const priority: int
    const supportsRgb: bool

    var connected: bool
    var plugged: bool
    var encoder: DrmEncoder?
    var currentMode: Mode
    var activeMode: Mode
    var bestMode: Mode
    var modes: seq<Mode>
    var rawModes: seq<Mode>
    var mirrorMode: bool
    var mirrorPrimary: bool
    var mirrorPrimaryId: int
    var mirrorDisplays: set<int>

    constructor (possibleEncoders: seq<DrmEncoder>, display: int, priority: int, supportsRgb: bool, connected: bool)
      ensures this.possibleEncoders == possibleEncoders && this.display == display
      ensures this.priority == priority && this.supportsRgb == supportsRgb
      ensures encoder == null && MirrorView() == NO_MIRROR
      ensures View() == Attributes(connected, connected, NO_MODE, NO_MODE, NO_MODE, [], [])
    {
      this.possibleEncoders, this.display := possibleEncoders, display;
      this.priority, this.supportsRgb := priority, supportsRgb;
      this.connected, plugged, encoder := connected, connected, null;
      currentMode, activeMode, bestMode := NO_MODE, NO_MODE, NO_MODE;
      modes, rawModes := [], [];
      mirrorMode, mirrorPrimary, mirrorPrimaryId, mirrorDisplays := false, false, -1, {};
    }

    function MirrorView(): Mirror
      reads `mirrorMode, `mirrorPrimary, `mirrorPrimaryId, `mirrorDisplays
    {
      Mirror(mirrorMode, mirrorPrimary, mirrorPrimaryId, mirrorDisplays)
    }

    function View(): Attributes
      reads `connected, `plugged, `currentMode, `activeMode, `bestMode, `modes, `rawModes
    {
      Attributes(connected, plugged, currentMode, activeMode, bestMode, modes, rawModes)
    }

    method SetEncoder(e: DrmEncoder?)
      modifies `encoder
      ensures encoder == e
    {
      encoder := e;
    }

    method SetActiveMode(m: Mode)
      modifies `activeMode
      ensures activeMode == m
    {
      activeMode := m;
    }

    method EnableConnectorMirrorMode(primaryId: int, mirrorId: int)
      modifies `mirrorMode, `mirrorPrimary, `mirrorPrimaryId, `mirrorDisplays
      ensures MirrorView() == EnableMirror(old(MirrorView()), display, primaryId, mirrorId)
    {
      mirrorMode := true;
      mirrorPrimary := false;
      mirrorPrimaryId := primaryId;
      if mirrorPrimaryId == display {
        mirrorPrimary := true;
        if mirrorId !in mirrorDisplays {
          mirrorDisplays := mirrorDisplays + {mirrorId};
        }
        assert mirrorDisplays == old(mirrorDisplays) + {mirrorId};
      } else {
        mirrorPrimary := false;
        mirrorDisplays := {};
      }
    }

    method DisableConnectorMirrorMode(d: int)
      modifies `mirrorMode, `mirrorPrimary, `mirrorPrimaryId, `mirrorDisplays
      ensures MirrorView() == DisableMirror(old(MirrorView()), d)
    {
      if mirrorPrimary {
        if d in mirrorDisplays {
          mirrorDisplays := mirrorDisplays - {d};
        }
        assert mirrorDisplays == old(mirrorDisplays) - {d};
        if |mirrorDisplays| == 0 {
          mirrorMode := false;
          mirrorPrimary := false;
        }
      } else {
        mirrorMode := false;
      }
    }

    /** One scan of a mode list; on a hit the mode becomes best and current. */
    method ScanModes(list: seq<Mode>, preferredOnly: bool, maxWidth: u64, maxDclk: u64) returns (found: bool)
      modifies `bestMode, `currentMode
      ensures var r := FirstFitting(list, preferredOnly, maxWidth, maxDclk);
              && found == r.Some?
              && View() == if r.Some? then old(View()).(best := r.value, current := r.value) else old(View())
    {
      var i := 0;
      while i < |list|
        invariant 0 <= i <= |list|
        invariant forall k :: 0 <= k < i ==> !Considered(list[k], preferredOnly, maxWidth, maxDclk)
        invariant View() == old(View())
      {
        if (preferredOnly ==> list[i].preferred) && list[i].timing.hDisplay <= maxWidth
          && RequiredDclk(list[i]) <= maxDclk {
          FirstFittingSkips(list, i, preferredOnly, maxWidth, maxDclk);
          bestMode := list[i];
          currentMode := list[i];
          return true;
        }
        i := i + 1;
      }
      FirstFittingSkips(list, i, preferredOnly, maxWidth, maxDclk);
      return false;
    }

    /** Without a fitting mode only the best mode is reset; the current one stays. */
    method GetSuitableMode(maxWidth: u64, maxDclk: u64)
      modifies `bestMode, `currentMode
      ensures var r := SuitableMode(old(modes), old(rawModes), maxWidth, maxDclk);
              View() == if r.Some? then old(View()).(best := r.value, current := r.value)
                        else old(View()).(best := NO_MODE)
    {
      var found := ScanModes(modes, true, maxWidth, maxDclk);
      if found { return; }
      found := ScanModes(modes, false, maxWidth, maxDclk);
      if found { return; }
      found := ScanModes(rawModes, true, maxWidth, maxDclk);
      if found { return; }
      found := ScanModes(rawModes, false, maxWidth, maxDclk);
      if found { return; }
      bestMode := NO_MODE;
    }
  }
}
