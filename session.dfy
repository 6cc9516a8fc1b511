// The main process of multinav/src/main.ts: its module-level state, the setters that
// change it, the layout that fills the per-pane bounds table, and the IPC handlers that
// route text, keys and mirrored input to the panes. Each handler returns the deliveries
// it makes instead of calling `sendInputEvent`.
module Multinav {
  import opened Common
  import opened Geometry
  import opened Routing
  import Shortcuts

  /** The main window's size, as `workArea` reports it. */
  datatype WindowSize = WindowSize(width: nat, height: nat)

  class Session {
    var inputMode: InputMode
    var leaderPane: Option<int>
    var sprayAll: bool
    var mirrorEnabled: bool
    var mirrorSourceIndex: int
    var viewCount: int
    /** webContents id -> pane index, filled by `view:hello`. */
    var wcToIndex: map<int, int>
    var controlBounds: Option<Rect>
    /** The webContents id of each pane. */
    const viewIds: seq<int>
    /** The `__bounds` each pane was last given; `None` until the first layout. */
    const bounds: array<Option<Rect>>

    ghost predicate Valid()
      reads this
    {
      && bounds.Length == PaneCount && |viewIds| == PaneCount
      && LeaderOnlyInMirror(Targeting())
      && 0 <= mirrorSourceIndex < PaneCount
      && (viewCount == 3 || viewCount == 4)
      && forall id :: id in wcToIndex ==> 0 <= wcToIndex[id] < PaneCount && wcToIndex[id] == FindIndex(viewIds, id)
    }

    /** `inputMode`, `leaderPane` and `sprayAll` together. */
    function Targeting(): Modes
      reads this
    {
      Modes(inputMode, leaderPane, sprayAll)
    }

    /** The bounds table as a sequence. */
    function Bounds(): seq<Option<Rect>>
      reads this, bounds
    {
      bounds[..]
    }

    /** `boundsOf(index)`. */
    function BoundsOf(index: int): Option<Rect>
      requires 0 <= index < bounds.Length
      reads this, bounds
    {
      bounds[index]
    }

    /** `wcToIndex.get(senderId)`. */
    function FromIndex(senderId: int): (r: Option<int>)
      reads this
      ensures r.Some? <==> senderId in wcToIndex
      ensures Valid() && r.Some? ==> 0 <= r.value < PaneCount && viewIds[r.value] == senderId
    {
      if senderId in wcToIndex then Some(wcToIndex[senderId]) else None
    }

    /** The state right after the four panes are created, before the first layout. */
    constructor (ids: seq<int>)
      requires |ids| == PaneCount
      ensures Valid() && fresh(bounds)
      ensures Targeting() == DefaultModes
      ensures !mirrorEnabled && mirrorSourceIndex == 0 && viewCount == 4
      ensures wcToIndex == map[] && controlBounds == None && viewIds == ids
      ensures Bounds() == [None, None, None, None]
    {
      inputMode, leaderPane, sprayAll := ControlMode, None, true;
      mirrorEnabled, mirrorSourceIndex, viewCount := false, 0, 4;
      wcToIndex, controlBounds, viewIds := map[], None, ids;
      bounds := new Option<Rect>[PaneCount](_ => None);
    }

    /** `setInputMode(mode)`. */
    method SetInputMode(mode: InputMode)
      requires Valid()
      modifies this
      ensures Valid()
      ensures Targeting() == AfterSetInputMode(old(Targeting()), mode)
      ensures mirrorEnabled == old(mirrorEnabled) && mirrorSourceIndex == old(mirrorSourceIndex)
      ensures viewCount == old(viewCount) && wcToIndex == old(wcToIndex) && controlBounds == old(controlBounds)
    {
      inputMode := mode;
      if mode != MirrorMode {
        leaderPane := None;
      }
    }

    /** `setLeader(idx)`. */
    method SetLeader(idx: Option<int>)
      requires Valid()
      modifies this
      ensures Valid()
      ensures Targeting() == AfterSetLeader(old(Targeting()), idx)
      ensures mirrorEnabled == old(mirrorEnabled) && mirrorSourceIndex == old(mirrorSourceIndex)
      ensures viewCount == old(viewCount) && wcToIndex == old(wcToIndex) && controlBounds == old(controlBounds)
    {
      leaderPane := idx;
      if inputMode != MirrorMode && idx.Some? {
        inputMode := MirrorMode;
      }
    }

    /** The `control:setSprayAll` handler. */
    method SetSprayAll(on: bool)
      requires Valid()
      modifies this
      ensures Valid()
      ensures Targeting() == AfterSetSprayAll(old(Targeting()), on)
      ensures mirrorEnabled == old(mirrorEnabled) && mirrorSourceIndex == old(mirrorSourceIndex)
      ensures viewCount == old(viewCount) && wcToIndex == old(wcToIndex) && controlBounds == old(controlBounds)
    {
      sprayAll := on;
    }

    /** `setMirrorEnabled(enabled)`. */
    method SetMirrorEnabled(enabled: bool)
      requires Valid()
      modifies this
      ensures Valid() && mirrorEnabled == enabled
      ensures Targeting() == old(Targeting()) && mirrorSourceIndex == old(mirrorSourceIndex)
      ensures viewCount == old(viewCount) && wcToIndex == old(wcToIndex) && controlBounds == old(controlBounds)
    {
      mirrorEnabled := enabled;
    }

    /** `setMirrorSource(index)`, without the outline it paints on the source pane. */
    method SetMirrorSource(index: int)
      requires Valid()
      modifies this
      ensures Valid() && mirrorSourceIndex == ClampSource(index)
      ensures Targeting() == old(Targeting()) && mirrorEnabled == old(mirrorEnabled)
      ensures viewCount == old(viewCount) && wcToIndex == old(wcToIndex) && controlBounds == old(controlBounds)
    {
      mirrorSourceIndex := ClampSource(index);
    }

    /** `setViewBounds(index, r)`: a no-op for an index that names no pane. */
    method SetViewBounds(index: int, r: Rect)
      modifies bounds
      ensures 0 <= index < bounds.Length ==> Bounds() == old(Bounds())[index := Some(r)]
      ensures 0 <= index < bounds.Length ==> BoundsOf(index) == Some(r)
      ensures !(0 <= index < bounds.Length) ==> Bounds() == old(Bounds())
    {
      if 0 <= index < bounds.Length {
        bounds[index] := Some(r);
      }
    }

    /** `layout()`: nothing without a window; otherwise the control panel and all four
        panes get the bounds the layout computes for the current view count. */
    method Layout(window: Option<WindowSize>)
      requires Valid()
      modifies this, bounds
      ensures Valid()
      ensures window.None? ==> Bounds() == old(Bounds()) && controlBounds == old(controlBounds)
      ensures window.Some? ==>
        && controlBounds == Some(ControlRect(window.value.height))
        && Bounds() == Somes(LayoutRects(window.value.width, window.value.height, viewCount))
      ensures Targeting() == old(Targeting()) && mirrorEnabled == old(mirrorEnabled)
      ensures mirrorSourceIndex == old(mirrorSourceIndex) && viewCount == old(viewCount) && wcToIndex == old(wcToIndex)
    {
      if window.None? {
        return;
      }
      var width, height := window.value.width, window.value.height;
      controlBounds := Some(ControlRect(height));
      var rs := LayoutRects(width, height, viewCount);
      SetViewBounds(0, rs[0]);
      SetViewBounds(1, rs[1]);
      SetViewBounds(2, rs[2]);
      SetViewBounds(3, rs[3]);
    }

    /** The `control:setViewCount` handler: store 3 or 4, then lay out again. */
    method SetViewCount(count: int, window: Option<WindowSize>)
      requires Valid()
      modifies this, bounds
      ensures Valid() && viewCount == NormalizeViewCount(count)
      ensures window.None? ==> Bounds() == old(Bounds()) && controlBounds == old(controlBounds)
      ensures window.Some? ==>
        && controlBounds == Some(ControlRect(window.value.height))
        && Bounds() == Somes(LayoutRects(window.value.width, window.value.height, viewCount))
      ensures Targeting() == old(Targeting()) && mirrorEnabled == old(mirrorEnabled)
      ensures mirrorSourceIndex == old(mirrorSourceIndex) && wcToIndex == old(wcToIndex)
    {
      viewCount := NormalizeViewCount(count);
      Layout(window);
    }

    /** The `view:hello` handler: remember which pane a webContents id belongs to. */
    method Hello(senderId: int)
      requires Valid()
      modifies this
      ensures Valid()
      ensures wcToIndex == if senderId in viewIds then old(wcToIndex)[senderId := FindIndex(viewIds, senderId)] else old(wcToIndex)
      ensures Targeting() == old(Targeting()) && mirrorEnabled == old(mirrorEnabled)
      ensures mirrorSourceIndex == old(mirrorSourceIndex) && viewCount == old(viewCount) && controlBounds == old(controlBounds)
    {
      var idx := FindIndex(viewIds, senderId);
      if idx >= 0 {
        wcToIndex := wcToIndex[senderId := idx];
      }
    }

    /** `for (const ch of Array.from(text)) v.webContents.sendInputEvent({ type: 'char', keyCode: ch })`. */
    static method TypeText(pane: int, text: string) returns (out: seq<Delivery>)
      ensures out == CharsTo(pane, text)
    {
      out := [];
      var c := 0;
      while c < |text|
        invariant 0 <= c <= |text|
        invariant out == CharsTo(pane, text[..c])
      {
        assert text[..c + 1][..c] == text[..c];
        out := out + [Delivery(pane, CharEvent(text[c]))];
        c := c + 1;
      }
      assert text[..|text|] == text;
    }

    /** The `control:sendText` handler. */
    method SendText(text: string) returns (out: seq<Delivery>)
      requires Valid()
      ensures out == TextDeliveries(Targeting(), PaneCount, text)
    {
      out := [];
      if |text| == 0 {
        return;
      }
      if inputMode == ControlMode {
        var targets := TargetPaneIndices(bounds.Length, Targeting());
        var t := 0;
        while t < |targets|
          invariant 0 <= t <= |targets|
          invariant out == Broadcast(targets[..t], PaneCount, text)
        {
          var idx := targets[t];
          assert targets[..t + 1][..t] == targets[..t];
          if 0 <= idx < bounds.Length {
            var typed := TypeText(idx, text);
            out := out + typed;
          }
          t := t + 1;
        }
        assert targets[..|targets|] == targets;
      } else if inputMode == MirrorMode && leaderPane.Some? {
        var idx := leaderPane.value;
        assert [idx][..0] == [];
        assert Broadcast([idx], PaneCount, text) == if 0 <= idx < PaneCount then CharsTo(idx, text) else [];
        if 0 <= idx < bounds.Length {
          out := TypeText(idx, text);
        }
      }
    }

    /** The `control:sendKey` handler: every pane gets key-down then key-up, whatever the mode. */
    method SendKey(key: string) returns (out: seq<Delivery>)
      requires Valid()
      ensures out == KeyFanOut(PaneCount, key)
    {
      out := [];
      var i := 0;
      while i < bounds.Length
        invariant 0 <= i <= bounds.Length
        invariant out == KeyFanOut(i, key)
      {
        out := out + [Delivery(i, KeyDown(key)), Delivery(i, KeyUp(key))];
        i := i + 1;
      }
    }

    /** The `view:inputEvent` handler for an event `ev` sent by webContents `senderId`. */
    method InputEvent(senderId: int, ev: Value) returns (out: seq<Delivery>)
      requires Valid()
      requires Relays(inputMode, mirrorEnabled, mirrorSourceIndex, FromIndex(senderId)) && Coords(ev).Some?
        ==> RemapReady(mirrorSourceIndex, Bounds())
      ensures out == MirrorDeliveries(inputMode, mirrorEnabled, mirrorSourceIndex, FromIndex(senderId), ev, Bounds())
    {
      out := [];
      if inputMode == ControlMode {
        return;
      }
      if !mirrorEnabled {
        return;
      }
      var from := FromIndex(senderId);
      if from.None? || from.value != mirrorSourceIndex {
        return;
      }
      var fromIndex := from.value;
      if Coords(ev).Some? {
        var src := bounds[fromIndex].value;
        var i := 0;
        while i < bounds.Length
          invariant 0 <= i <= bounds.Length
          invariant out == RelayUpTo(i, fromIndex, ev, Bounds())
        {
          if i != fromIndex {
            var tgt := bounds[i].value;
            var mapped := Remap(ev, src, tgt);
            assert mapped == Outgoing(ev, fromIndex, Bounds(), i);
            out := out + [Delivery(i, Relayed(mapped))];
          }
          i := i + 1;
        }
        return;
      }
      var i := 0;
      while i < bounds.Length
        invariant 0 <= i <= bounds.Length
        invariant out == RelayUpTo(i, fromIndex, ev, Bounds())
      {
        if i != fromIndex {
          assert ev == Outgoing(ev, fromIndex, Bounds(), i);
          out := out + [Delivery(i, Relayed(ev))];
        }
        i := i + 1;
      }
    }

    /** The `before-input-event` handler: classify the key press and carry out the two
        shortcuts that change routing state (toggle mirroring, pick the source pane). */
    method BeforeInput(ctrl: bool, shift: bool, alt: bool, key: string, code: string) returns (a: Shortcuts.Action)
      requires Valid()
      modifies this
      ensures Valid() && a == Shortcuts.Classify(ctrl, shift, alt, key, code)
      ensures mirrorEnabled == if a == Shortcuts.ToggleMirror then !old(mirrorEnabled) else old(mirrorEnabled)
      ensures mirrorSourceIndex == if a.SetSource? then a.index else old(mirrorSourceIndex)
      ensures Targeting() == old(Targeting()) && viewCount == old(viewCount)
      ensures wcToIndex == old(wcToIndex) && controlBounds == old(controlBounds)
    {
      a := Shortcuts.Classify(ctrl, shift, alt, key, code);
      if a == Shortcuts.ToggleMirror {
        SetMirrorEnabled(!mirrorEnabled);
      } else if a.SetSource? {
        SetMirrorSource(a.index);
      }
    }
  }

  /** Every rectangle of `rs`, as a stored bound. */
  function Somes(rs: seq<Rect>): (r: seq<Option<Rect>>)
    ensures |r| == |rs| && forall i :: 0 <= i < |rs| ==> r[i] == Some(rs[i])
  {
    if |rs| == 0 then [] else Somes(rs[..|rs| - 1]) + [Some(rs[|rs| - 1])]
  }

  /** The smallest window `createMainWindow` allows. */
  const MinWindowWidth: int := 1200
  const MinWindowHeight: int := 800

  /** Once `layout()` has run for a window of at least the minimum size, every pane's bounds
      are set and positive, so the coordinate path of the relay never divides by zero,
      whichever pane is the source and whichever pane count is chosen. */
  lemma LayoutMakesRemapReady(width: int, height: int, viewCount: int, from: int)
    requires width >= MinWindowWidth && height >= MinWindowHeight && 0 <= from < PaneCount
    ensures RemapReady(from, Somes(LayoutRects(width, height, viewCount)))
    ensures forall i :: 0 <= i < PaneCount ==>
      LayoutRects(width, height, viewCount)[i].width > 0 && LayoutRects(width, height, viewCount)[i].height > 0
  {
  }

  /** Two `applyModeUI` calls from the defaults: the panel set to mirror pane 2 with spray
      off, where text goes to pane 2 alone, then switched to control mode with spray off,
      where text reaches no pane and keys still reach all four. */
  method ModeScenario(ids: seq<int>, text: string)
    requires |ids| == PaneCount
  {
    var s := new Session(ids);
    s.SetInputMode(MirrorMode);
    s.SetLeader(Some(2));
    s.SetSprayAll(false);
    assert s.Targeting() == Modes(MirrorMode, Some(2), false);
    var toLeader := s.SendText(text);
    TextToLeaderOnly(s.Targeting(), PaneCount, text);
    assert toLeader == CharsTo(2, text);
    s.SetInputMode(ControlMode);
    s.SetLeader(None);
    s.SetSprayAll(false);
    assert s.Targeting() == Modes(ControlMode, None, false);
    var out := s.SendText(text);
    TextSilentCases(s.Targeting(), PaneCount, text);
    assert out == [];
    var keys := s.SendKey("Enter");
    assert |keys| == 2 * PaneCount;
  }

  /** Switching to three panes parks pane 3 outside the grid; switching back gives it its
      grid cell again, and in a window of at least the minimum size the mirror relay can
      rescale from the source pane. */
  method PaneCountScenario(ids: seq<int>, width: nat, height: nat)
    requires |ids| == PaneCount
  {
    var s := new Session(ids);
    var w := Some(WindowSize(width, height));
    s.Layout(w);
    s.SetViewCount(3, w);
    assert s.bounds[3] == Some(Rect(ControlWidth + Grid(width, height).width, 0, 1, 1));
    s.SetViewCount(4, w);
    FourPaneLayoutTiles(width, height);
    assert s.bounds[3] == Some(LayoutRects(width, height, 4)[3]);
    if width >= MinWindowWidth && height >= MinWindowHeight {
      LayoutMakesRemapReady(width, height, s.viewCount, s.mirrorSourceIndex);
      assert RemapReady(s.mirrorSourceIndex, s.Bounds());
    }
  }
}
