/** Display modes as the allocator sees them, and the output-capability arithmetic. */
module DisplayModes {
  import opened Arithmetic

  const U32: int := 0x1_0000_0000
  const U64: int := 0x1_0000_0000_0000_0000

  type u32 = x: int | 0 <= x < 0x1_0000_0000
  type u64 = x: int | 0 <= x < 0x1_0000_0000_0000_0000

  datatype Option<+T> = None | Some(value: T)

  /** The fields that equal_no_flag_and_type compares. */
  datatype Timing = Timing(
    clock: u32,
    hDisplay: u32, hSyncStart: u32, hSyncEnd: u32, hTotal: u32,
    vDisplay: u32, vSyncStart: u32, vSyncEnd: u32, vTotal: u32)

  /** `refreshHz` is the refresh rate truncated to an integer; `id` is 0 for the default mode. */
  datatype Mode = Mode(id: u32, timing: Timing, refreshHz: u64, preferred: bool)

  const NO_MODE := Mode(0, Timing(0, 0, 0, 0, 0, 0, 0, 0, 0), 0, false)

  /** Width times height wraps in 32 bits before it is widened and multiplied by the rate. */
  function RequiredDclk(m: Mode): u64 {
    (((m.timing.hDisplay * m.timing.vDisplay) % U32) * m.refreshHz) % U64
  }

  predicate Fits(m: Mode, maxWidth: u64, maxDclk: u64) {
    m.timing.hDisplay <= maxWidth && RequiredDclk(m) <= maxDclk
  }

  /** Whether a pass that may only look at preferred modes considers `m`. */
  predicate Considered(m: Mode, preferredOnly: bool, maxWidth: u64, maxDclk: u64) {
    (preferredOnly ==> m.preferred) && Fits(m, maxWidth, maxDclk)
  }

  function FirstFitting(modes: seq<Mode>, preferredOnly: bool, maxWidth: u64, maxDclk: u64): Option<Mode> {
    if modes == [] then None
    else if Considered(modes[0], preferredOnly, maxWidth, maxDclk) then Some(modes[0])
    else FirstFitting(modes[1..], preferredOnly, maxWidth, maxDclk)
  }

  /** The four passes: preferred then any mode of the white list, preferred then any raw mode. */
  function SuitableMode(modes: seq<Mode>, raw: seq<Mode>, maxWidth: u64, maxDclk: u64): Option<Mode> {
    var a := FirstFitting(modes, true, maxWidth, maxDclk);
    if a.Some? then a else
    var b := FirstFitting(modes, false, maxWidth, maxDclk);
    if b.Some? then b else
    var c := FirstFitting(raw, true, maxWidth, maxDclk);
    if c.Some? then c else FirstFitting(raw, false, maxWidth, maxDclk)
  }

  /** The first mode considered, by position; none exactly when there is no such mode. */
  lemma {:induction false} FirstFittingFinds(modes: seq<Mode>, preferredOnly: bool, maxWidth: u64, maxDclk: u64)
    ensures var r := FirstFitting(modes, preferredOnly, maxWidth, maxDclk);
            && (r.Some? <==> exists m :: m in modes && Considered(m, preferredOnly, maxWidth, maxDclk))
            && (r.Some? ==>
                  exists i :: 0 <= i < |modes| && modes[i] == r.value
                    && Considered(modes[i], preferredOnly, maxWidth, maxDclk)
                    && forall j :: 0 <= j < i ==> !Considered(modes[j], preferredOnly, maxWidth, maxDclk))
  {
    if modes != [] {
      if Considered(modes[0], preferredOnly, maxWidth, maxDclk) {
        assert modes[0] in modes;
      } else {
        FirstFittingFinds(modes[1..], preferredOnly, maxWidth, maxDclk);
        assert modes == [modes[0]] + modes[1..];
        var r := FirstFitting(modes[1..], preferredOnly, maxWidth, maxDclk);
        if r.Some? {
          var i :| 0 <= i < |modes[1..]| && modes[1..][i] == r.value
                   && Considered(modes[1..][i], preferredOnly, maxWidth, maxDclk)
                   && forall j :: 0 <= j < i ==> !Considered(modes[1..][j], preferredOnly, maxWidth, maxDclk);
          forall j | 0 <= j < i + 1 ensures !Considered(modes[j], preferredOnly, maxWidth, maxDclk) {
            assert j > 0 ==> modes[j] == modes[1..][j - 1];
          }
          assert modes[i + 1] == r.value;
        }
      }
    }
  }

  /** Width times height times rate, in two products that wrap, is exact precisely when neither does. */
  lemma WrappedProduct(area: nat, low: nat, hz: nat)
    requires low == area % U32
    ensures (low * hz) % U64 == area * hz <==> (hz == 0 || area < U32) && area * hz < U64
  {
    DivMod(area, U32);
    DivMod(low * hz, U64);
    if hz == 0 {
      assert low * hz == 0 && area * hz == 0;
    } else if area < U32 {
      BelowIsItself(area, U32);
      if area * hz < U64 {
        BelowIsItself(area * hz, U64);
      }
    } else {
      assert low < area;
      ProductGrows(low, area, hz);
    }
  }

  /** The required clock is what the mode really needs exactly when no product wraps. */
  lemma ClockIsExact(m: Mode)
    ensures var w, h, hz := m.timing.hDisplay, m.timing.vDisplay, m.refreshHz;
            RequiredDclk(m) == w * h * hz
            <==> (hz == 0 || w * h < 0x1_0000_0000) && w * h * hz < 0x1_0000_0000_0000_0000
  {
    var area := (m.timing.hDisplay as int) * m.timing.vDisplay;
    ProductGrows(0, m.timing.vDisplay, m.timing.hDisplay);
    WrappedProduct(area, area % U32, m.refreshHz);
  }

  /** Prefixes that were scanned without a hit can be dropped: what the scanning loops rely on. */
  lemma {:induction false} FirstFittingSkips(modes: seq<Mode>, k: nat, preferredOnly: bool, maxWidth: u64, maxDclk: u64)
    requires k <= |modes|
    requires forall i :: 0 <= i < k ==> !Considered(modes[i], preferredOnly, maxWidth, maxDclk)
    ensures FirstFitting(modes, preferredOnly, maxWidth, maxDclk)
         == FirstFitting(modes[k..], preferredOnly, maxWidth, maxDclk)
  {
    if k > 0 {
      FirstFittingSkips(modes[1..], k - 1, preferredOnly, maxWidth, maxDclk);
      assert modes[1..][k - 1..] == modes[k..];
    } else {
      assert modes[0..] == modes;
    }
  }

  /**
   * The search is complete, sound, and ranks the lists: a raw mode is only taken when no listed mode
   * fits, and within the list used a preferred mode that fits always wins.
   */
  lemma SuitableModeRanks(modes: seq<Mode>, raw: seq<Mode>, maxWidth: u64, maxDclk: u64)
    ensures var r := SuitableMode(modes, raw, maxWidth, maxDclk);
            && (r.Some? <==> exists m :: m in modes + raw && Fits(m, maxWidth, maxDclk))
            && (r.Some? ==>
                  && Fits(r.value, maxWidth, maxDclk)
                  && ((exists m :: m in modes && Fits(m, maxWidth, maxDclk)) ==> r.value in modes)
                  && ((exists m :: m in modes && m.preferred && Fits(m, maxWidth, maxDclk)) ==> r.value.preferred)
                  && (r.value !in modes ==> r.value in raw)
                  && ((r.value !in modes && exists m :: m in raw && m.preferred && Fits(m, maxWidth, maxDclk)) ==>
                    r.value.preferred))
  {
    FirstFittingFinds(modes, true, maxWidth, maxDclk);
    FirstFittingFinds(modes, false, maxWidth, maxDclk);
    FirstFittingFinds(raw, true, maxWidth, maxDclk);
    FirstFittingFinds(raw, false, maxWidth, maxDclk);
    if m :| m in modes && Fits(m, maxWidth, maxDclk) {
      assert Considered(m, false, maxWidth, maxDclk);
    }
    if m :| m in raw && Fits(m, maxWidth, maxDclk) {
      assert Considered(m, false, maxWidth, maxDclk);
    }
    if m :| m in modes && m.preferred && Fits(m, maxWidth, maxDclk) {
      assert Considered(m, true, maxWidth, maxDclk);
    }
    if m :| m in raw && m.preferred && Fits(m, maxWidth, maxDclk) {
      assert Considered(m, true, maxWidth, maxDclk);
    }
  }
}
