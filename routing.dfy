// Input routing of multinav/src/main.ts as specification functions: the input-mode state
// machine, broadcast targets, and the deliveries made by the sendText, sendKey and
// view:inputEvent handlers. The handlers themselves are methods of Multinav.Session.
module Routing {
  import opened Common
  import opened Geometry

  /** `'control' | 'mirror' | 'none'`. */
  datatype InputMode = ControlMode | MirrorMode | NoneMode

  /** The targeting state: `inputMode`, `leaderPane` and `sprayAll`. */
  datatype Modes = Modes(mode: InputMode, leader: Option<int>, sprayAll: bool)

  /** The values these three variables start with. */
  const DefaultModes: Modes := Modes(ControlMode, None, true)

  /** A leader pane is only ever set while the mode is mirror. */
  predicate LeaderOnlyInMirror(s: Modes)
  {
    s.leader.Some? ==> s.mode == MirrorMode
  }

  /** `setInputMode(m)`: store the mode; any mode but mirror drops the leader. */
  function AfterSetInputMode(s: Modes, m: InputMode): (r: Modes)
    ensures r.mode == m && r.sprayAll == s.sprayAll
    ensures r.leader == if m == MirrorMode then s.leader else None
    ensures LeaderOnlyInMirror(s) ==> LeaderOnlyInMirror(r)
  {
    var leader := if m != MirrorMode then None else s.leader;
    Modes(m, leader, s.sprayAll)
  }

  /** `setLeader(idx)`: store the leader; a non-null leader forces mirror mode. */
  function AfterSetLeader(s: Modes, idx: Option<int>): (r: Modes)
    ensures r.leader == idx && r.sprayAll == s.sprayAll
    ensures idx.Some? ==> r.mode == MirrorMode
    ensures idx.None? ==> r.mode == s.mode
    ensures LeaderOnlyInMirror(r)
  {
    var mode := if s.mode != MirrorMode && idx.Some? then MirrorMode else s.mode;
    Modes(mode, idx, s.sprayAll)
  }

  /** The `control:setSprayAll` handler. */
  function AfterSetSprayAll(s: Modes, on: bool): (r: Modes)
    ensures r.sprayAll == on && r.mode == s.mode && r.leader == s.leader
  {
    s.(sprayAll := on)
  }

  /** The three call sequences the control panel's `applyModeUI` issues, from any state:
      control mode with no leader, none mode with no leader, or mirror mode led by `v`. */
  lemma ApplyModeUIOutcomes(s: Modes, v: int, spray: bool)
    ensures AfterSetSprayAll(AfterSetLeader(AfterSetInputMode(s, ControlMode), None), spray)
         == Modes(ControlMode, None, spray)
    ensures AfterSetSprayAll(AfterSetLeader(AfterSetInputMode(s, NoneMode), None), spray)
         == Modes(NoneMode, None, spray)
    ensures AfterSetSprayAll(AfterSetLeader(AfterSetInputMode(s, MirrorMode), Some(v)), spray)
         == Modes(MirrorMode, Some(v), spray)
  {
  }

  /** `views.map((_, i) => i)`: the indices 0..n-1 in order. */
  function AllPanes(n: nat): (r: seq<int>)
    ensures |r| == n && forall i :: 0 <= i < n ==> r[i] == i
    ensures forall p :: p in r <==> 0 <= p < n
  {
    if n == 0 then [] else AllPanes(n - 1) + [n - 1]
  }

  /** `targetPaneIndices()` for `n` panes. */
  function TargetPaneIndices(n: nat, s: Modes): (r: seq<int>)
    ensures forall p :: p in r <==> if s.sprayAll then 0 <= p < n else s.leader == Some(p)
    ensures |r| == if s.sprayAll then n else if s.leader.Some? then 1 else 0
  {
    if s.sprayAll then AllPanes(n) else if s.leader.Some? then [s.leader.value] else []
  }

  /** With the leader invariant, control mode without spray has no targets at all. */
  lemma ControlWithoutSprayHasNoTargets(n: nat, s: Modes)
    requires LeaderOnlyInMirror(s) && s.mode == ControlMode && !s.sprayAll
    ensures TargetPaneIndices(n, s) == []
  {
  }

  /** A value as the main process receives it over IPC. */
  datatype Value = Null | Bool(b: bool) | Num(n: real) | Str(s: string) | Obj(fields: map<string, Value>)

  /** What `sendInputEvent` is given: a `char` event for one code point, a key-down or
      key-up for a named key, or a relayed event object. */
  datatype Sent = CharEvent(ch: char) | KeyDown(key: string) | KeyUp(key: string) | Relayed(ev: Value)

  /** One call of `views[pane].webContents.sendInputEvent(sent)`. */
  datatype Delivery = Delivery(pane: int, sent: Sent)

  /** `char` events for every code point of `text` (a Dafny string is a sequence of code
      points, as `Array.from` splits it), all to one pane. */
  function CharsTo(p: int, text: string): (r: seq<Delivery>)
    ensures |r| == |text|
    ensures forall j :: 0 <= j < |text| ==> r[j] == Delivery(p, CharEvent(text[j]))
  {
    if |text| == 0 then [] else CharsTo(p, text[..|text| - 1]) + [Delivery(p, CharEvent(text[|text| - 1]))]
  }

  /** The entries of `targets` that index an existing pane (`views[idx]` is defined), in order. */
  function Existing(targets: seq<int>, n: int): (r: seq<int>)
    ensures |r| <= |targets|
    ensures forall k :: 0 <= k < |r| ==> 0 <= r[k] < n
    ensures forall p :: p in r <==> p in targets && 0 <= p < n
  {
    if |targets| == 0 then []
    else
      var p := targets[|targets| - 1];
      Existing(targets[..|targets| - 1], n) + (if 0 <= p < n then [p] else [])
  }

  /** The loop over `targets` in `control:sendText`: each target that exists gets the whole
      text; the others are skipped. */
  function Broadcast(targets: seq<int>, n: int, text: string): seq<Delivery>
  {
    if |targets| == 0 then []
    else
      var p := targets[|targets| - 1];
      Broadcast(targets[..|targets| - 1], n, text) + (if 0 <= p < n then CharsTo(p, text) else [])
  }

  /** Where the k-th block of `L` deliveries starts: k * L, built up by addition. */
  function Offset(k: nat, L: nat): nat
  {
    if k == 0 then 0 else Offset(k - 1, L) + L
  }

  lemma {:induction false} OffsetMono(k: nat, m: nat, L: nat)
    requires k < m
    ensures Offset(k, L) + L <= Offset(m, L)
  {
    if k + 1 < m {
      OffsetMono(k, m - 1, L);
    }
  }

  lemma {:induction false} OffsetIsProduct(k: nat, L: nat)
    ensures Offset(k, L) == k * L
  {
    if k > 0 {
      OffsetIsProduct(k - 1, L);
    }
  }

  /** `b` is block after block of the whole text, one block per pane of `panes`. */
  predicate TextBlocks(b: seq<Delivery>, panes: seq<int>, text: string)
  {
    && |b| == Offset(|panes|, |text|)
    && forall k, j :: 0 <= k < |panes| && 0 <= j < |text| ==>
         Offset(k, |text|) + j < |b| && b[Offset(k, |text|) + j] == Delivery(panes[k], CharEvent(text[j]))
  }

  lemma AppendBlock(b: seq<Delivery>, panes: seq<int>, p: int, text: string)
    requires TextBlocks(b, panes, text)
    ensures TextBlocks(b + CharsTo(p, text), panes + [p], text)
  {
    var m, L := |panes|, |text|;
    var c := CharsTo(p, text);
    var b', e' := b + c, panes + [p];
    assert |b'| == Offset(|e'|, L);
    forall k, j | 0 <= k < |e'| && 0 <= j < L
      ensures Offset(k, L) + j < |b'| && b'[Offset(k, L) + j] == Delivery(e'[k], CharEvent(text[j]))
    {
      if k < m {
        OffsetMono(k, m, L);
        assert e'[k] == panes[k];
        assert b'[Offset(k, L) + j] == b[Offset(k, L) + j];
      } else {
        assert b'[Offset(k, L) + j] == c[j];
      }
    }
  }

  lemma {:induction false} BroadcastBlocks(targets: seq<int>, n: int, text: string)
    ensures TextBlocks(Broadcast(targets, n, text), Existing(targets, n), text)
  {
    if |targets| > 0 {
      var front := targets[..|targets| - 1];
      var p := targets[|targets| - 1];
      BroadcastBlocks(front, n, text);
      if 0 <= p < n {
        assert Broadcast(targets, n, text) == Broadcast(front, n, text) + CharsTo(p, text);
        assert Existing(targets, n) == Existing(front, n) + [p];
        AppendBlock(Broadcast(front, n, text), Existing(front, n), p, text);
      } else {
        assert Broadcast(targets, n, text) == Broadcast(front, n, text);
        assert Existing(targets, n) == Existing(front, n);
      }
    }
  }

  lemma BlockAt(b: seq<Delivery>, panes: seq<int>, text: string, k: nat, j: nat)
    requires TextBlocks(b, panes, text) && k < |panes| && j < |text|
    ensures 0 <= k * |text| + j < |b| && b[k * |text| + j] == Delivery(panes[k], CharEvent(text[j]))
  {
    var d := Delivery(panes[k], CharEvent(text[j]));
    assert Offset(k, |text|) + j < |b| && b[Offset(k, |text|) + j] == d;
    OffsetIsProduct(k, |text|);
  }

  /** A broadcast holds one whole copy of the text per existing target. */
  lemma {:induction false} BroadcastLength(targets: seq<int>, n: int, text: string)
    ensures |Broadcast(targets, n, text)| == |Existing(targets, n)| * |text|
  {
    if |targets| > 0 {
      var front, p := targets[..|targets| - 1], targets[|targets| - 1];
      BroadcastLength(front, n, text);
      var m, L := |Existing(front, n)|, |text|;
      assert |Broadcast(front, n, text)| == m * L;
      if 0 <= p < n {
        assert |Broadcast(targets, n, text)| == m * L + L;
        assert |Existing(targets, n)| == m + 1;
        MulSucc(m, L);
      } else {
        assert |Broadcast(targets, n, text)| == m * L;
        assert |Existing(targets, n)| == m;
      }
    }
  }

  lemma MulSucc(m: nat, L: nat)
    ensures (m + 1) * L == m * L + L
  {
  }

  /** Delivery k * |text| + j of a broadcast is code point j for the k-th existing target:
      every existing target, in target order, receives the whole text left to right. */
  lemma BroadcastAt(targets: seq<int>, n: int, text: string)
    ensures forall k, j :: 0 <= k < |Existing(targets, n)| && 0 <= j < |text| ==>
      && 0 <= k * |text| + j < |Broadcast(targets, n, text)|
      && Broadcast(targets, n, text)[k * |text| + j] == Delivery(Existing(targets, n)[k], CharEvent(text[j]))
  {
    var b, e := Broadcast(targets, n, text), Existing(targets, n);
    BroadcastBlocks(targets, n, text);
    forall k, j | 0 <= k < |e| && 0 <= j < |text|
      ensures 0 <= k * |text| + j < |b| && b[k * |text| + j] == Delivery(e[k], CharEvent(text[j]))
    {
      BlockAt(b, e, text, k, j);
    }
  }

  /** Every delivery of a broadcast is a `char` event for an existing pane. */
  lemma {:induction false} BroadcastOnlyChars(targets: seq<int>, n: int, text: string)
    ensures forall d :: d in Broadcast(targets, n, text) ==> 0 <= d.pane < n && d.sent.CharEvent?
  {
    if |targets| > 0 {
      BroadcastOnlyChars(targets[..|targets| - 1], n, text);
    }
  }

  /** What `control:sendText` delivers for `n` panes. */
  function TextDeliveries(s: Modes, n: nat, text: string): seq<Delivery>
  {
    if |text| == 0 then []
    else match s.mode
      case ControlMode => Broadcast(TargetPaneIndices(n, s), n, text)
      case MirrorMode => if s.leader.Some? then Broadcast([s.leader.value], n, text) else []
      case NoneMode => []
  }

  /** In control mode with spray, pane k receives code point j as delivery k * |text| + j,
      so every pane gets the whole text, in pane order. */
  lemma TextSprayedToAllPanes(s: Modes, n: nat, text: string)
    requires s.mode == ControlMode && s.sprayAll
    ensures |TextDeliveries(s, n, text)| == n * |text|
    ensures forall k, j :: 0 <= k < n && 0 <= j < |text| ==>
      && k * |text| + j < |TextDeliveries(s, n, text)|
      && TextDeliveries(s, n, text)[k * |text| + j] == Delivery(k, CharEvent(text[j]))
  {
    SprayIsBroadcast(s, n, text);
    BroadcastToAllPanes(n, text);
  }

  /** The broadcast to every pane, laid out block by block. */
  lemma BroadcastToAllPanes(n: nat, text: string)
    ensures |Broadcast(AllPanes(n), n, text)| == n * |text|
    ensures forall k, j :: 0 <= k < n && 0 <= j < |text| ==>
      && k * |text| + j < |Broadcast(AllPanes(n), n, text)|
      && Broadcast(AllPanes(n), n, text)[k * |text| + j] == Delivery(k, CharEvent(text[j]))
  {
    var b := Broadcast(AllPanes(n), n, text);
    ExistingAllPanes(n);
    BroadcastLength(AllPanes(n), n, text);
    assert |Existing(AllPanes(n), n)| == n;
    forall k, j | 0 <= k < n && 0 <= j < |text|
      ensures k * |text| + j < |b| && b[k * |text| + j] == Delivery(k, CharEvent(text[j]))
    {
      SprayedAt(n, text, k, j);
    }
  }

  /** With spray in control mode, `sendText` is the broadcast to every pane. */
  lemma SprayIsBroadcast(s: Modes, n: nat, text: string)
    requires s.mode == ControlMode && s.sprayAll
    ensures TextDeliveries(s, n, text) == Broadcast(AllPanes(n), n, text)
  {
    if |text| == 0 {
      ExistingAllPanes(n);
      BroadcastLength(AllPanes(n), n, text);
    }
  }

  /** Broadcasting to every pane puts code point j for pane k at k * |text| + j. */
  lemma SprayedAt(n: nat, text: string, k: nat, j: nat)
    requires k < n && j < |text|
    ensures var d := Broadcast(AllPanes(n), n, text); var at := k * |text| + j;
      at < |d| && d[at] == Delivery(k, CharEvent(text[j]))
  {
    var all := AllPanes(n);
    ExistingAllPanes(n);
    BroadcastBlocks(all, n, text);
    BlockAt(Broadcast(all, n, text), all, text, k, j);
  }

  lemma {:induction false} ExistingAllPanes(n: nat)
    ensures Existing(AllPanes(n), n) == AllPanes(n)
  {
    if n > 0 {
      ExistingPrefix(AllPanes(n - 1), n - 1, n);
      assert AllPanes(n)[..n - 1] == AllPanes(n - 1);
    }
  }

  lemma {:induction false} ExistingPrefix(t: seq<int>, m: nat, n: nat)
    requires m <= n && |t| == m && forall i :: 0 <= i < m ==> t[i] == i
    ensures Existing(t, n) == t
  {
    if m > 0 {
      assert t[..m - 1][..] == t[..m - 1];
      ExistingPrefix(t[..m - 1], m - 1, n);
    }
  }

  /** In mirror mode with a leader, only the leader receives the text: all of it, in order,
      if it names an existing pane, and nothing otherwise. */
  lemma TextToLeaderOnly(s: Modes, n: nat, text: string)
    requires s.mode == MirrorMode && s.leader.Some?
    ensures 0 <= s.leader.value < n ==> TextDeliveries(s, n, text) == CharsTo(s.leader.value, text)
    ensures !(0 <= s.leader.value < n) ==> TextDeliveries(s, n, text) == []
  {
    var t := [s.leader.value];
    assert t[..0] == [];
    assert Broadcast(t, n, text) == if 0 <= s.leader.value < n then CharsTo(s.leader.value, text) else [];
    if |text| == 0 {
      assert CharsTo(s.leader.value, text) == [];
    }
  }

  /** Nothing is delivered for empty text, in none mode, in mirror mode without a leader,
      or (given the leader invariant) in control mode without spray. */
  lemma TextSilentCases(s: Modes, n: nat, text: string)
    requires LeaderOnlyInMirror(s)
    requires |text| == 0 || s.mode == NoneMode || (s.mode == MirrorMode && s.leader.None?)
          || (s.mode == ControlMode && !s.sprayAll)
    ensures TextDeliveries(s, n, text) == []
  {
  }

  /** Every delivery of `control:sendText` is a `char` event for an existing pane. */
  lemma TextOnlyCharsToExistingPanes(s: Modes, n: nat, text: string)
    ensures forall d :: d in TextDeliveries(s, n, text) ==> 0 <= d.pane < n && d.sent.CharEvent?
  {
    BroadcastOnlyChars(TargetPaneIndices(n, s), n, text);
    if s.leader.Some? {
      BroadcastOnlyChars([s.leader.value], n, text);
    }
  }

  /** `control:sendKey`: every one of `n` panes, in index order, gets key-down then key-up. */
  function KeyFanOut(n: nat, key: string): (r: seq<Delivery>)
    ensures |r| == 2 * n
    ensures forall i :: 0 <= i < n ==> r[2 * i] == Delivery(i, KeyDown(key)) && r[2 * i + 1] == Delivery(i, KeyUp(key))
  {
    if n == 0 then [] else KeyFanOut(n - 1, key) + [Delivery(n - 1, KeyDown(key)), Delivery(n - 1, KeyUp(key))]
  }

  /** The numeric coordinates of an event, if it carries both: `ev && typeof ev.x === 'number'
      && typeof ev.y === 'number'`. */
  function Coords(ev: Value): (r: Option<(real, real)>)
    ensures r.Some? <==> ev.Obj? && "x" in ev.fields && ev.fields["x"].Num? && "y" in ev.fields && ev.fields["y"].Num?
  {
    if ev.Obj? && "x" in ev.fields && ev.fields["x"].Num? && "y" in ev.fields && ev.fields["y"].Num?
    then Some((ev.fields["x"].n, ev.fields["y"].n))
    else None
  }

  /** `{ ...ev }` with `x` and `y` rescaled from the source pane's bounds to the target's. */
  function Remap(ev: Value, src: Rect, tgt: Rect): Value
    requires Coords(ev).Some? && src.width > 0 && src.height > 0
  {
    var (x, y) := Coords(ev).value;
    var mx := ScaleCoord(x, tgt.width, src.width);
    var my := ScaleCoord(y, tgt.height, src.height);
    Obj(ev.fields["x" := Num(mx as real)]["y" := Num(my as real)])
  }

  /** The remapped event has the same keys; every field other than `x` and `y` is copied,
      and `x` and `y` are the rescaled coordinates, inside the target pane. */
  lemma RemapRescalesCoordinates(ev: Value, src: Rect, tgt: Rect)
    requires Coords(ev).Some? && src.width > 0 && src.height > 0
    ensures var r := Remap(ev, src, tgt);
      && r.Obj? && r.fields.Keys == ev.fields.Keys
      && (forall k :: k in ev.fields && k != "x" && k != "y" ==> r.fields[k] == ev.fields[k])
      && r.fields["x"] == Num(ScaleCoord(ev.fields["x"].n, tgt.width, src.width) as real)
      && r.fields["y"] == Num(ScaleCoord(ev.fields["y"].n, tgt.height, src.height) as real)
      && 0.0 <= r.fields["x"].n <= Max(0, tgt.width - 1) as real
      && 0.0 <= r.fields["y"].n <= Max(0, tgt.height - 1) as real
  {
  }

  /** The bounds table is filled and the source pane has a positive size: what the
      coordinate path of the relay relies on. */
  predicate RemapReady(from: int, bounds: seq<Option<Rect>>)
  {
    && 0 <= from < |bounds|
    && (forall i :: 0 <= i < |bounds| ==> bounds[i].Some?)
    && bounds[from].value.width > 0 && bounds[from].value.height > 0
  }

  /** The event pane `i` receives when `from` is relayed. */
  function Outgoing(ev: Value, from: int, bounds: seq<Option<Rect>>, i: int): Value
    requires 0 <= i < |bounds|
    requires Coords(ev).Some? ==> RemapReady(from, bounds)
  {
    if Coords(ev).Some? then Remap(ev, bounds[from].value, bounds[i].value) else ev
  }

  /** The relay loop over panes 0..k-1, skipping the origin. */
  function RelayUpTo(k: nat, from: int, ev: Value, bounds: seq<Option<Rect>>): seq<Delivery>
    requires k <= |bounds|
    requires Coords(ev).Some? ==> RemapReady(from, bounds)
  {
    if k == 0 then []
    else RelayUpTo(k - 1, from, ev, bounds)
         + (if k - 1 == from then [] else [Delivery(k - 1, Relayed(Outgoing(ev, from, bounds, k - 1)))])
  }

  /** The guards of `view:inputEvent`: not in control mode, mirroring enabled, and the
      sender known and equal to the mirror source. */
  predicate Relays(mode: InputMode, enabled: bool, source: int, from: Option<int>)
  {
    mode != ControlMode && enabled && from == Some(source)
  }

  /** What `view:inputEvent` delivers for an event `ev` from pane `from`. */
  function MirrorDeliveries(mode: InputMode, enabled: bool, source: int, from: Option<int>,
                            ev: Value, bounds: seq<Option<Rect>>): seq<Delivery>
    requires Relays(mode, enabled, source, from) && Coords(ev).Some? ==> RemapReady(source, bounds)
  {
    if Relays(mode, enabled, source, from) then RelayUpTo(|bounds|, from.value, ev, bounds) else []
  }

  lemma {:induction false} RelayUpToAt(k: nat, from: int, ev: Value, bounds: seq<Option<Rect>>)
    requires k <= |bounds|
    requires Coords(ev).Some? ==> RemapReady(from, bounds)
    ensures |RelayUpTo(k, from, ev, bounds)| == if 0 <= from < k then k - 1 else k
    ensures forall m :: 0 <= m < |RelayUpTo(k, from, ev, bounds)| ==>
      var p := if 0 <= from <= m then m + 1 else m;
      RelayUpTo(k, from, ev, bounds)[m] == Delivery(p, Relayed(Outgoing(ev, from, bounds, p)))
  {
    if k > 0 {
      RelayUpToAt(k - 1, from, ev, bounds);
      var front, all := RelayUpTo(k - 1, from, ev, bounds), RelayUpTo(k, from, ev, bounds);
      if k - 1 == from {
        assert all == front;
      } else {
        var d := Delivery(k - 1, Relayed(Outgoing(ev, from, bounds, k - 1)));
        assert all == front + [d];
        forall m | 0 <= m < |all|
          ensures var p := if 0 <= from <= m then m + 1 else m;
            all[m] == Delivery(p, Relayed(Outgoing(ev, from, bounds, p)))
        {
          if m < |front| {
            assert all[m] == front[m];
          } else {
            assert m == |front| && all[m] == d;
            assert (if 0 <= from <= m then m + 1 else m) == k - 1;
          }
        }
      }
    }
  }

  /** When the guards pass, each pane other than the origin gets exactly one event, in index
      order, and the origin gets none; an event with coordinates is remapped for its target
      and any other event is relayed unchanged. */
  lemma MirrorRelaysToOthers(mode: InputMode, enabled: bool, source: int, from: Option<int>,
                             ev: Value, bounds: seq<Option<Rect>>)
    requires Relays(mode, enabled, source, from) && 0 <= source < |bounds|
    requires Coords(ev).Some? ==> RemapReady(source, bounds)
    ensures var r := MirrorDeliveries(mode, enabled, source, from, ev, bounds);
      && |r| == |bounds| - 1
      && (forall m :: 0 <= m < |r| ==> r[m].pane == (if m < source then m else m + 1))
      && (forall m :: 0 <= m < |r| ==> r[m].pane != source)
      && (forall m :: 0 <= m < |r| && Coords(ev).None? ==> r[m].sent == Relayed(ev))
      && (forall m :: 0 <= m < |r| && Coords(ev).Some? ==>
            r[m].sent == Relayed(Remap(ev, bounds[source].value, bounds[r[m].pane].value)))
  {
    RelayUpToAt(|bounds|, source, ev, bounds);
  }

  /** Nothing is relayed in control mode, with mirroring disabled, from an unknown sender,
      or from a pane other than the mirror source; with at least two panes the converse
      holds too. */
  lemma MirrorSilentIff(mode: InputMode, enabled: bool, source: int, from: Option<int>,
                        ev: Value, bounds: seq<Option<Rect>>)
    requires Relays(mode, enabled, source, from) && Coords(ev).Some? ==> RemapReady(source, bounds)
    requires |bounds| >= 2 && 0 <= source < |bounds|
    ensures MirrorDeliveries(mode, enabled, source, from, ev, bounds) == []
        <==> (mode == ControlMode || !enabled || from.None? || from.value != source)
  {
    if Relays(mode, enabled, source, from) {
      RelayUpToAt(|bounds|, source, ev, bounds);
    }
  }

  /** The view preload sends `{ fromIndex, ev }`, whose top level has no `x`/`y`, so the
      relay forwards that wrapper to the other panes unchanged instead of rescaling it. */
  lemma WrappedEventIsNotRescaled(fromIndex: real, inner: Value)
    ensures Coords(Obj(map["fromIndex" := Num(fromIndex), "ev" := inner])).None?
  {
    var w := map["fromIndex" := Num(fromIndex), "ev" := inner];
    assert "x" !in w;
  }

  /** `views.findIndex(v => v.webContents.id === id)`: the first pane with this id, or -1. */
  function FindIndex(ids: seq<int>, id: int): (r: int)
    ensures -1 <= r < |ids|
    ensures r >= 0 ==> ids[r] == id && forall k :: 0 <= k < r ==> ids[k] != id
    ensures r == -1 <==> id !in ids
  {
    if |ids| == 0 then -1
    else if ids[0] == id then 0
    else
      var k := FindIndex(ids[1..], id);
      if k == -1 then -1 else k + 1
  }

  /** `setMirrorSource`: `Math.max(0, Math.min(3, index))`. */
  function ClampSource(index: int): (r: int)
    ensures 0 <= r < PaneCount
    ensures 0 <= index < PaneCount ==> r == index
    ensures index < 0 ==> r == 0
    ensures index >= PaneCount ==> r == PaneCount - 1
  {
    Max(0, Min(3, index))
  }

  /** `control:setViewCount`: `count === 3 ? 3 : 4`. */
  function NormalizeViewCount(count: int): (r: int)
    ensures r == 3 || r == 4
    ensures r == 3 <==> count == 3
  {
    if count == 3 then 3 else 4
  }
}
