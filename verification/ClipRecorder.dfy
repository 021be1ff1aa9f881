/** Clips around alerts: a ring buffer of each camera's last frames, and the frames that follow an alert.

    Two tasks share three maps. Between two awaits a task runs alone, so what they do is a sequence of the atomic blocks
    below: a camera loop starting, a masked frame arriving, an alert arriving. */
module ClipRecorder {
  import opened Wrappers

  type Camera = nat
  type Jpeg = nat

  datatype Event = Start(c: Camera) | Frame(c: Camera, jpeg: Jpeg) | Alert(c: Camera)

  datatype Clip = Clip(c: Camera, frames: seq<Jpeg>)

  // ---------------------------------------------------------------- what happened

  /** The camera's masked frames so far. */
  function Frames(h: seq<Event>, c: Camera): seq<Jpeg> {
    if h == [] then []
    else
      var before, last := Frames(h[..|h| - 1], c), h[|h| - 1];
      if last.Frame? && last.c == c then before + [last.jpeg] else before
  }

  predicate Started(h: seq<Event>, c: Camera) {
    h != [] && (h[|h| - 1] == Start(c) || Started(h[..|h| - 1], c))
  }

  /** How many frames come after an alert: at least the one that finds there are none to wait for. */
  function Tail(post: int): nat { if post < 1 then 1 else post }

  /** While a clip is being recorded: how many frames the camera had when its alert came. */
  function Open(h: seq<Event>, c: Camera, post: int): Option<nat> {
    if h == [] then None
    else
      var p, last := h[..|h| - 1], h[|h| - 1];
      var open := Open(p, c, post);
      if last == Alert(c) && Started(p, c) && open.None? then Some(|Frames(p, c)|)
      else if last.Frame? && last.c == c && open.Some? && |Frames(p, c)| + 1 >= open.value + Tail(post) then None
      else open
  }

  /** A clip that has been saved: whose, and how many frames the camera had when its alert came. */
  datatype Cut = Cut(c: Camera, at: nat)

  function Cuts(h: seq<Event>, post: int): seq<Cut> {
    if h == [] then []
    else
      var p, last := h[..|h| - 1], h[|h| - 1];
      Cuts(p, post)
      + if last.Frame? && Open(p, last.c, post).Some?
           && |Frames(p, last.c)| + 1 >= Open(p, last.c, post).value + Tail(post)
        then [Cut(last.c, Open(p, last.c, post).value)] else []
  }

  function Min(a: nat, b: nat): nat { if a < b then a else b }

  /** The last `pre` frames before the alert, or all there were, and the `tail` frames after it. */
  function Around(frames: seq<Jpeg>, at: nat, pre: nat, tail: nat): (clip: seq<Jpeg>)
    requires at + tail <= |frames|
    ensures |clip| == Min(pre, at) + tail
  {
    frames[at - Min(pre, at)..at + tail]
  }

  // ---------------------------------------------------------------- what is saved, and when

  /** What one more event does to the history of a camera. */
  lemma OneMore(h: seq<Event>, e: Event, c: Camera, post: int)
    ensures var open := Open(h, c, post);
            && Frames(h + [e], c) == (if e.Frame? && e.c == c then Frames(h, c) + [e.jpeg] else Frames(h, c))
            && Started(h + [e], c) == (e == Start(c) || Started(h, c))
            && Open(h + [e], c, post) == (
                 if e == Alert(c) && Started(h, c) && open.None? then Some(|Frames(h, c)|)
                 else if e.Frame? && e.c == c && open.Some? && |Frames(h, c)| + 1 >= open.value + Tail(post) then None
                 else open)
            && (!e.Frame? ==> Cuts(h + [e], post) == Cuts(h, post))
            && (e.Frame? && e.c == c ==>
                  Cuts(h + [e], post) == Cuts(h, post)
                  + if open.Some? && |Frames(h, c)| + 1 >= open.value + Tail(post) then [Cut(c, open.value)] else [])
  {
  }

  lemma OpenIsRecent(h: seq<Event>, c: Camera, post: int)
    ensures Open(h, c, post).Some? ==>
              Open(h, c, post).value <= |Frames(h, c)| < Open(h, c, post).value + Tail(post)
  {
  }

  lemma {:induction false} FramesGrow(h: seq<Event>, k: nat, c: Camera)
    requires k <= |h|
    ensures Frames(h[..k], c) <= Frames(h, c)
  {
    if k < |h| {
      FramesGrow(h[..|h| - 1], k, c);
      assert h[..|h| - 1][..k] == h[..k];
    } else {
      assert h[..k] == h;
    }
  }

  /** At position i an alert came for a started camera that was not recording, after its first `at` frames. */
  ghost predicate Accepted(h: seq<Event>, i: nat, c: Camera, at: nat, post: int) {
    && i < |h| && h[i] == Alert(c) && Started(h[..i], c) && Open(h[..i], c, post).None?
    && |Frames(h[..i], c)| == at
  }

  ghost predicate AcceptedAt(h: seq<Event>, c: Camera, at: nat, post: int) {
    exists i :: Accepted(h, i, c, at, post)
  }

  lemma StillAccepted(h: seq<Event>, c: Camera, at: nat, post: int)
    requires h != []
    ensures AcceptedAt(h[..|h| - 1], c, at, post) ==> AcceptedAt(h, c, at, post)
    ensures AcceptedAt(h, c, at, post) ==>
              AcceptedAt(h[..|h| - 1], c, at, post) || Accepted(h, |h| - 1, c, at, post)
  {
    var p := h[..|h| - 1];
    forall i: nat | i < |p|
      ensures Accepted(p, i, c, at, post) == Accepted(h, i, c, at, post)
    {
      assert p[..i] == h[..i];
    }
    assert p[..|p|] == p;
  }

  /** Every alert that started a clip is the open one or, once enough frames came, one that was saved. */
  lemma {:induction false} AlertsAreOpenOrCut(h: seq<Event>, c: Camera, at: nat, post: int)
    ensures AcceptedAt(h, c, at, post) <==> Open(h, c, post) == Some(at) || Cut(c, at) in Cuts(h, post)
  {
    if h != [] {
      var p := h[..|h| - 1];
      AlertsAreOpenOrCut(p, c, at, post);
      StillAccepted(h, c, at, post);
      var i: nat := |h| - 1;
      if Accepted(h, i, c, at, post) { assert AcceptedAt(h, c, at, post); }
      assert Accepted(h, i, c, at, post)
        <==> h[i] == Alert(c) && Started(p, c) && Open(p, c, post).None? && |Frames(p, c)| == at;
    }
  }

  lemma {:induction false} CutsAreOver(h: seq<Event>, post: int, cut: Cut)
    requires cut in Cuts(h, post)
    ensures cut.at + Tail(post) <= |Frames(h, cut.c)|
  {
    var p := h[..|h| - 1];
    if cut in Cuts(p, post) { CutsAreOver(p, post, cut); }
  }

  /** A clip is saved exactly for each alert that found its camera started and not recording, as soon as the frames
      that follow it have come; every other alert is passed over. */
  lemma SavedIffAccepted(h: seq<Event>, c: Camera, at: nat, post: int)
    ensures Cut(c, at) in Cuts(h, post) <==> AcceptedAt(h, c, at, post) && at + Tail(post) <= |Frames(h, c)|
  {
    AlertsAreOpenOrCut(h, c, at, post);
    OpenIsRecent(h, c, post);
    if Cut(c, at) in Cuts(h, post) { CutsAreOver(h, post, Cut(c, at)); }
  }

  ghost predicate Later(cuts: seq<Cut>, i: nat, j: nat, tail: nat)
    requires i < |cuts| && j < |cuts|
  {
    cuts[i].c == cuts[j].c ==> cuts[i].at + tail <= cuts[j].at
  }

  lemma {:induction false} OpenAfterCuts(h: seq<Event>, post: int, cut: Cut)
    requires cut in Cuts(h, post) && Open(h, cut.c, post).Some?
    ensures cut.at + Tail(post) <= Open(h, cut.c, post).value
  {
    var p, last := h[..|h| - 1], h[|h| - 1];
    if cut in Cuts(p, post) {
      if Open(p, cut.c, post).Some? { OpenAfterCuts(p, post, cut); } else { CutsAreOver(p, post, cut); }
    }
  }

  /** A camera records one clip at a time: the frames after one clip's alert are over before the next one's comes. */
  lemma {:induction false} OneClipAtATime(h: seq<Event>, post: int, i: nat, j: nat)
    requires i < j < |Cuts(h, post)|
    ensures Later(Cuts(h, post), i, j, Tail(post))
  {
    var p := h[..|h| - 1];
    var before, cuts := Cuts(p, post), Cuts(h, post);
    if j < |before| {
      OneClipAtATime(p, post, i, j);
    } else {
      assert cuts[i] == before[i];
      if cuts[i].c == cuts[j].c { OpenAfterCuts(p, post, before[i]); }
    }
  }

  /** The clip is the slice of its camera's frames around its alert. */
  ghost predicate IsCut(h: seq<Event>, pre: nat, post: int, clip: Clip, cut: Cut) {
    var frames := Frames(h, cut.c);
    && clip.c == cut.c && cut.at + Tail(post) <= |frames|
    && clip.frames == Around(frames, cut.at, pre, Tail(post))
  }

  ghost predicate AreCuts(h: seq<Event>, pre: nat, post: int, saved: seq<Clip>, cuts: seq<Cut>) {
    |saved| == |cuts| && forall i :: 0 <= i < |cuts| ==> IsCut(h, pre, post, saved[i], cuts[i])
  }

  lemma CutStays(h: seq<Event>, e: Event, pre: nat, post: int, clip: Clip, cut: Cut)
    requires IsCut(h, pre, post, clip, cut)
    ensures IsCut(h + [e], pre, post, clip, cut)
  {
    OneMore(h, e, cut.c, post);
  }

  /** Clips cut earlier are still slices of the frames there are later. */
  lemma CutsStay(h: seq<Event>, e: Event, pre: nat, post: int, saved: seq<Clip>, cuts: seq<Cut>)
    requires AreCuts(h, pre, post, saved, cuts)
    ensures AreCuts(h + [e], pre, post, saved, cuts)
  {
    forall i | 0 <= i < |cuts|
      ensures IsCut(h + [e], pre, post, saved[i], cuts[i])
    {
      CutStays(h, e, pre, post, saved[i], cuts[i]);
    }
  }

  /** The last `pre` frames, or all there are. */
  function LastFrames(frames: seq<Jpeg>, pre: nat): seq<Jpeg> { frames[|frames| - Min(pre, |frames|)..] }

  /** The frames from `pre` before an alert on, or from the first. */
  function FramesFrom(frames: seq<Jpeg>, at: nat, pre: nat): seq<Jpeg>
    requires at <= |frames|
  {
    frames[at - Min(pre, at)..]
  }

  function Pushed(buffer: seq<Jpeg>, jpeg: Jpeg, pre: nat): seq<Jpeg> {
    var next := buffer + [jpeg];
    if |next| > pre then next[1..] else next
  }

  /** A full ring buffer loses its first frame. */
  lemma BufferMoves(frames: seq<Jpeg>, jpeg: Jpeg, pre: nat)
    ensures Pushed(LastFrames(frames, pre), jpeg, pre) == LastFrames(frames + [jpeg], pre)
  {
    var more := frames + [jpeg];
    if |frames| < pre {
      assert LastFrames(frames, pre) == frames && LastFrames(more, pre) == more;
    } else {
      BufferIsFull(frames, jpeg, pre);
    }
  }

  lemma BufferIsFull(frames: seq<Jpeg>, jpeg: Jpeg, pre: nat)
    requires |frames| >= pre
    ensures (frames[|frames| - pre..] + [jpeg])[1..] == (frames + [jpeg])[|frames| + 1 - pre..]
  {
    var a, b := (frames[|frames| - pre..] + [jpeg])[1..], (frames + [jpeg])[|frames| + 1 - pre..];
    assert |a| == |b| == pre;
    forall i | 0 <= i < pre
      ensures a[i] == b[i]
    {
      if i + 1 < pre { assert a[i] == frames[|frames| - pre + 1 + i]; }
    }
  }

  /** What the three maps hold of one camera. */
  datatype Memory = Memory(buffer: Option<seq<Jpeg>>, left: Option<int>, clip: Option<seq<Jpeg>>)

  /** They hold its last frames, and how far the clip it is recording has come. */
  ghost predicate Fits(h: seq<Event>, c: Camera, pre: nat, post: int, m: Memory) {
    var frames, open := Frames(h, c), Open(h, c, post);
    && (m.buffer.Some? <==> Started(h, c))
    && (m.buffer.None? ==> frames == [])
    && (m.buffer.Some? ==> m.buffer.value == LastFrames(frames, pre))
    && (m.left.Some? <==> open.Some?) && (m.clip.Some? <==> open.Some?)
    && (open.Some? ==>
          && open.value <= |frames| && m.left.value == post - (|frames| - open.value)
          && m.clip.value == FramesFrom(frames, open.value, pre))
  }

  lemma OthersFit(h: seq<Event>, e: Event, c: Camera, pre: nat, post: int, m: Memory)
    requires e.c != c && Fits(h, c, pre, post, m)
    ensures Fits(h + [e], c, pre, post, m)
  {
    OneMore(h, e, c, post);
  }

  /** What the maps hold of a camera once its loop has begun, and once an alert has come. */
  function Ready(m: Memory): Memory { if m.buffer.None? then m.(buffer := Some([])) else m }

  function Alerted(m: Memory, post: int): Memory {
    if m.buffer.Some? && m.left.None? then Memory(m.buffer, Some(post), m.buffer) else m
  }

  lemma StartFits(h: seq<Event>, c: Camera, pre: nat, post: int, m: Memory, saved: seq<Clip>)
    requires Fits(h, c, pre, post, m) && AreCuts(h, pre, post, saved, Cuts(h, post))
    ensures Fits(h + [Start(c)], c, pre, post, Ready(m))
    ensures AreCuts(h + [Start(c)], pre, post, saved, Cuts(h + [Start(c)], post))
  {
    OneMore(h, Start(c), c, post);
    CutsStay(h, Start(c), pre, post, saved, Cuts(h, post));
  }

  lemma AlertFits(h: seq<Event>, c: Camera, pre: nat, post: int, m: Memory, saved: seq<Clip>)
    requires Fits(h, c, pre, post, m) && AreCuts(h, pre, post, saved, Cuts(h, post))
    ensures Fits(h + [Alert(c)], c, pre, post, Alerted(m, post))
    ensures AreCuts(h + [Alert(c)], pre, post, saved, Cuts(h + [Alert(c)], post))
  {
    OneMore(h, Alert(c), c, post);
    CutsStay(h, Alert(c), pre, post, saved, Cuts(h, post));
  }

  lemma ClipMoves(frames: seq<Jpeg>, jpeg: Jpeg, at: nat, pre: nat)
    requires at <= |frames|
    ensures FramesFrom(frames, at, pre) + [jpeg] == FramesFrom(frames + [jpeg], at, pre)
  {
  }

  lemma FrameFitsIdle(h: seq<Event>, c: Camera, jpeg: Jpeg, pre: nat, post: int, m: Memory)
    requires Fits(h, c, pre, post, m) && m.buffer.Some? && m.left.None?
    ensures Fits(h + [Frame(c, jpeg)], c, pre, post, m.(buffer := Some(Pushed(m.buffer.value, jpeg, pre))))
    ensures Cuts(h + [Frame(c, jpeg)], post) == Cuts(h, post)
  {
    OneMore(h, Frame(c, jpeg), c, post);
    BufferMoves(Frames(h, c), jpeg, pre);
  }

  lemma FrameFitsRecording(h: seq<Event>, c: Camera, jpeg: Jpeg, pre: nat, post: int, m: Memory)
    requires Fits(h, c, pre, post, m) && m.buffer.Some? && m.left.Some? && m.left.value > 1
    ensures Fits(h + [Frame(c, jpeg)], c, pre, post,
                 Memory(Some(Pushed(m.buffer.value, jpeg, pre)), Some(m.left.value - 1), Some(m.clip.value + [jpeg])))
    ensures Cuts(h + [Frame(c, jpeg)], post) == Cuts(h, post)
  {
    OneMore(h, Frame(c, jpeg), c, post);
    BufferMoves(Frames(h, c), jpeg, pre);
    ClipMoves(Frames(h, c), jpeg, Open(h, c, post).value, pre);
  }

  /** The frame that completes the clip. */
  lemma FrameFitsLast(h: seq<Event>, c: Camera, jpeg: Jpeg, pre: nat, post: int, m: Memory)
    requires Fits(h, c, pre, post, m) && m.buffer.Some? && m.left.Some? && m.left.value <= 1
    ensures Fits(h + [Frame(c, jpeg)], c, pre, post, Memory(Some(Pushed(m.buffer.value, jpeg, pre)), None, None))
    ensures Cuts(h + [Frame(c, jpeg)], post) == Cuts(h, post) + [Cut(c, Open(h, c, post).value)]
    ensures IsCut(h + [Frame(c, jpeg)], pre, post, Clip(c, m.clip.value + [jpeg]), Cut(c, Open(h, c, post).value))
  {
    var frames, at := Frames(h, c), Open(h, c, post).value;
    OneMore(h, Frame(c, jpeg), c, post);
    BufferMoves(frames, jpeg, pre);
    OpenIsRecent(h, c, post);
    ClipMoves(frames, jpeg, at, pre);
    AroundIsTheRest(frames + [jpeg], at, pre, Tail(post));
  }

  lemma AroundIsTheRest(frames: seq<Jpeg>, at: nat, pre: nat, tail: nat)
    requires |frames| == at + tail
    ensures Around(frames, at, pre, tail) == FramesFrom(frames, at, pre)
  {
  }

  /** What the maps hold of a camera once they have taken a frame. */
  function Received(m: Memory, jpeg: Jpeg, pre: nat): Memory
    requires m.buffer.Some? && (m.left.Some? <==> m.clip.Some?)
  {
    var buffer := Some(Pushed(m.buffer.value, jpeg, pre));
    if m.left.None? || m.left.value <= 1 then Memory(buffer, None, None)
    else Memory(buffer, Some(m.left.value - 1), Some(m.clip.value + [jpeg]))
  }

  /** The clip the frame completes, if it completes one. */
  function Completed(m: Memory, c: Camera, jpeg: Jpeg): seq<Clip>
    requires m.left.Some? <==> m.clip.Some?
  {
    if m.left.Some? && m.left.value <= 1 then [Clip(c, m.clip.value + [jpeg])] else []
  }

  lemma FrameFits(h: seq<Event>, c: Camera, jpeg: Jpeg, pre: nat, post: int, m: Memory, saved: seq<Clip>)
    requires Fits(h, c, pre, post, m) && m.buffer.Some? && AreCuts(h, pre, post, saved, Cuts(h, post))
    ensures var h' := h + [Frame(c, jpeg)];
            && Fits(h', c, pre, post, Received(m, jpeg, pre))
            && AreCuts(h', pre, post, saved + Completed(m, c, jpeg), Cuts(h', post))
  {
    CutsStay(h, Frame(c, jpeg), pre, post, saved, Cuts(h, post));
    if m.left.None? {
      FrameFitsIdle(h, c, jpeg, pre, post, m);
    } else if m.left.value > 1 {
      FrameFitsRecording(h, c, jpeg, pre, post, m);
    } else {
      FrameFitsLast(h, c, jpeg, pre, post, m);
    }
  }

  /** The three maps, and what they hold of one camera. */
  datatype Maps = Maps(buffers: map<Camera, seq<Jpeg>>, remaining: map<Camera, int>, clips: map<Camera, seq<Jpeg>>)

  function MemoryOf(m: Maps, c: Camera): Memory {
    Memory(if c in m.buffers then Some(m.buffers[c]) else None, if c in m.remaining then Some(m.remaining[c]) else None,
           if c in m.clips then Some(m.clips[c]) else None)
  }

  ghost predicate AllFit(h: seq<Event>, pre: nat, post: int, m: Maps) {
    forall c :: Fits(h, c, pre, post, MemoryOf(m, c))
  }

  /** An event moves on the memory of its own camera, and no other. */
  lemma AllFitAfter(h: seq<Event>, e: Event, pre: nat, post: int, m: Maps, m': Maps)
    requires AllFit(h, pre, post, m) && Fits(h + [e], e.c, pre, post, MemoryOf(m', e.c))
    requires forall d :: d != e.c ==> MemoryOf(m', d) == MemoryOf(m, d)
    ensures AllFit(h + [e], pre, post, m')
  {
    forall d
      ensures Fits(h + [e], d, pre, post, MemoryOf(m', d))
    {
      if d != e.c {
        assert Fits(h, d, pre, post, MemoryOf(m, d));
        OthersFit(h, e, d, pre, post, MemoryOf(m, d));
      }
    }
  }

  /** All is as it should be: the maps of every camera, and the clips saved. */
  ghost predicate Right(h: seq<Event>, pre: nat, post: int, m: Maps, saved: seq<Clip>) {
    AllFit(h, pre, post, m) && AreCuts(h, pre, post, saved, Cuts(h, post))
  }

  function WithStart(m: Maps, c: Camera): Maps {
    if c in m.buffers then m else m.(buffers := m.buffers[c := []])
  }

  lemma StartMoves(m: Maps, c: Camera)
    ensures MemoryOf(WithStart(m, c), c) == Ready(MemoryOf(m, c))
    ensures forall d :: d != c ==> MemoryOf(WithStart(m, c), d) == MemoryOf(m, d)
  {
  }

  lemma StartKeepsRight(h: seq<Event>, c: Camera, pre: nat, post: int, m: Maps, saved: seq<Clip>)
    requires Right(h, pre, post, m, saved)
    ensures Right(h + [Start(c)], pre, post, WithStart(m, c), saved)
  {
    var was, now := MemoryOf(m, c), WithStart(m, c);
    assert Fits(h, c, pre, post, was);
    StartFits(h, c, pre, post, was, saved);
    StartMoves(m, c);
    AllFitAfter(h, Start(c), pre, post, m, now);
  }

  function WithAlert(m: Maps, c: Camera, post: int): Maps {
    if c in m.buffers && c !in m.remaining
    then m.(remaining := m.remaining[c := post], clips := m.clips[c := m.buffers[c]]) else m
  }

  lemma AlertKeepsRight(h: seq<Event>, c: Camera, pre: nat, post: int, m: Maps, saved: seq<Clip>)
    requires Right(h, pre, post, m, saved)
    ensures Right(h + [Alert(c)], pre, post, WithAlert(m, c, post), saved)
  {
    assert Fits(h, c, pre, post, MemoryOf(m, c));
    AlertFits(h, c, pre, post, MemoryOf(m, c), saved);
    assert MemoryOf(WithAlert(m, c, post), c) == Alerted(MemoryOf(m, c), post);
    AllFitAfter(h, Alert(c), pre, post, m, WithAlert(m, c, post));
  }

  /** The maps once a frame has been taken into the buffer and into the clip. */
  function WithFrame(m: Maps, c: Camera, jpeg: Jpeg, pre: nat): Maps
    requires c in m.buffers && (c in m.remaining <==> c in m.clips)
  {
    var buffers := m.buffers[c := Pushed(m.buffers[c], jpeg, pre)];
    if c !in m.remaining then m.(buffers := buffers)
    else if m.remaining[c] <= 1 then Maps(buffers, m.remaining - {c}, m.clips - {c})
    else Maps(buffers, m.remaining[c := m.remaining[c] - 1], m.clips[c := m.clips[c] + [jpeg]])
  }

  lemma FrameKeepsRight(h: seq<Event>, c: Camera, jpeg: Jpeg, pre: nat, post: int, m: Maps, saved: seq<Clip>)
    requires Right(h, pre, post, m, saved) && c in m.buffers
    ensures c in m.remaining <==> c in m.clips
    ensures Right(h + [Frame(c, jpeg)], pre, post, WithFrame(m, c, jpeg, pre),
                  saved + Completed(MemoryOf(m, c), c, jpeg))
  {
    assert Fits(h, c, pre, post, MemoryOf(m, c));
    FrameFits(h, c, jpeg, pre, post, MemoryOf(m, c), saved);
    assert MemoryOf(WithFrame(m, c, jpeg, pre), c) == Received(MemoryOf(m, c), jpeg, pre);
    AllFitAfter(h, Frame(c, jpeg), pre, post, m, WithFrame(m, c, jpeg, pre));
  }

  // ---------------------------------------------------------------- the code

  class Recorder {
    const pre: nat
    const post: int
    var buffers: map<Camera, seq<Jpeg>>
    var remaining: map<Camera, int>
    var clips: map<Camera, seq<Jpeg>>
    var saved: seq<Clip>
    ghost var history: seq<Event>

    constructor (pre: nat, post: int)
      ensures this.pre == pre && this.post == post && Valid() && history == [] && saved == []
    {
      this.pre, this.post := pre, post;
      buffers, remaining, clips, saved, history := map[], map[], map[], [], [];
    }

    ghost function Held(): Maps
      reads this
    {
      Maps(buffers, remaining, clips)
    }

    /** The maps say of each camera what happened to it, and every clip saved is the slice of its camera's frames that
        the history calls for. */
    ghost predicate Valid()
      reads this
    {
      Right(history, pre, post, Held(), saved)
    }

    /** run_camera_loop begins: a buffer it finds it keeps. */
    method StartCamera(c: Camera)
      requires Valid()
      modifies this`buffers, this`history
      ensures Valid() && history == old(history) + [Start(c)]
    {
      StartKeepsRight(history, c, pre, post, Held(), saved);
      ghost var m := WithStart(Held(), c);
      if c !in buffers { buffers := buffers[c := []]; }
      assert Held() == m;
      history := history + [Start(c)];
    }

    /** A message that an alert was created. */
    method OnAlert(c: Camera)
      requires Valid()
      modifies this`remaining, this`clips, this`history
      ensures Valid() && history == old(history) + [Alert(c)]
    {
      AlertKeepsRight(history, c, pre, post, Held(), saved);
      ghost var m := WithAlert(Held(), c, post);
      if c in buffers && c !in remaining {
        remaining := remaining[c := post];
        clips := clips[c := buffers[c]];
      }
      assert Held() == m;
      history := history + [Alert(c)];
    }

    /** run_camera_loop has a new masked frame: into the ring buffer, and into the clip that is being recorded. */
    method OnFrame(c: Camera, jpeg: Jpeg)
      requires Valid() && c in buffers
      modifies this
      ensures Valid() && history == old(history) + [Frame(c, jpeg)]
    {
      FrameKeepsRight(history, c, jpeg, pre, post, Held(), saved);
      ghost var m, more := WithFrame(Held(), c, jpeg, pre), saved + Completed(MemoryOf(Held(), c), c, jpeg);
      buffers := buffers[c := Pushed(buffers[c], jpeg, pre)];
      if c in remaining {
        Record(c, jpeg);
      }
      assert Held() == m && saved == more;
      history := history + [Frame(c, jpeg)];
    }

    /** The clip takes the frame and is saved when no more are to come. */
    method Record(c: Camera, jpeg: Jpeg)
      requires c in remaining && c in clips
      modifies this`remaining, this`clips, this`saved
      ensures var left, clip := old(remaining)[c] - 1, old(clips)[c] + [jpeg];
              if left <= 0 then
                && saved == old(saved) + [Clip(c, clip)]
                && remaining == old(remaining) - {c} && clips == old(clips) - {c}
              else
                && saved == old(saved)
                && remaining == old(remaining)[c := left] && clips == old(clips)[c := clip]
    {
      clips := clips[c := clips[c] + [jpeg]];
      remaining := remaining[c := remaining[c] - 1];
      if remaining[c] <= 0 {
        saved := saved + [Clip(c, clips[c])];
        clips, remaining := clips - {c}, remaining - {c};
      }
    }
  }
}
