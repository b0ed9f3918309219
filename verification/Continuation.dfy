/** Reading a large attachment or raw message in bounded windows. */
module Continuation {
  import opened Lists
  import opened MailTypes

  function Flatten(chunks: seq<seq<Byte>>): seq<Byte> {
    if chunks == [] then [] else Flatten(chunks[..|chunks| - 1]) + chunks[|chunks| - 1]
  }

  function Min(a: nat, b: nat): nat {
    if a < b then a else b
  }

  /** The bytes of content within [offset, offset + cap). */
  function Slice(content: seq<Byte>, offset: nat, cap: nat): seq<Byte> {
    if offset >= |content| then [] else content[offset..Min(offset + cap, |content|)]
  }

  lemma {:induction false} FlattenPrefix(chunks: seq<seq<Byte>>, i: nat)
    requires i <= |chunks|
    ensures |Flatten(chunks[..i])| <= |Flatten(chunks)|
    ensures Flatten(chunks)[..|Flatten(chunks[..i])|] == Flatten(chunks[..i])
    decreases |chunks| - i
  {
    if i < |chunks| {
      FlattenPrefix(chunks, i + 1);
      assert chunks[..i + 1][..i] == chunks[..i];
    } else {
      assert chunks[..i] == chunks;
    }
  }

  /** A slice that already overflows its cap in a prefix of the content is the slice of the whole content. */
  lemma SliceOfPrefix(content: seq<Byte>, done: nat, offset: nat, cap: nat)
    requires done <= |content| && offset + cap < done
    ensures Slice(content[..done], offset, cap) == Slice(content, offset, cap)
  {
  }

  /** One loop step on the content read so far: the new chunk's share is skipped, kept, or kept up to the cap. */
  lemma SliceExtends(done: seq<Byte>, buffer: seq<Byte>, offset: nat, cap: nat)
    requires offset + cap >= |done|
    ensures var start := if offset > |done| then offset - |done| else 0;
            var kept := Slice(done, offset, cap);
            && |kept| <= cap
            && if start >= |buffer| then
                 Slice(done + buffer, offset, cap) == kept && offset + cap >= |done + buffer|
               else if |buffer| - start > cap - |kept| then
                 && Slice(done + buffer, offset, cap) == kept + buffer[start..][..cap - |kept|]
                 && offset + cap < |done + buffer|
               else
                 && Slice(done + buffer, offset, cap) == kept + buffer[start..]
                 && offset + cap >= |done + buffer|
  {
    var start := if offset > |done| then offset - |done| else 0;
    var whole, kept := done + buffer, Slice(done, offset, cap);
    if start < |buffer| {
      assert kept == if offset < |done| then done[offset..] else [];
      assert whole[offset..] == kept + buffer[start..];
      assert whole[offset..Min(offset + cap, |whole|)] == whole[offset..][..Min(offset + cap, |whole|) - offset];
    }
  }

  /** The stream may break after its last chunk; the break matters only if the window was not yet full. */
  datatype Stream = Stream(chunks: seq<seq<Byte>>, breaks: bool)

  /** The adapter's loop: skip the prefix chunk by chunk, keep what fits, stop at the first byte that does not. */
  method ReadWindow(stream: Stream, offset: nat, cap: nat) returns (bytes: Option<seq<Byte>>, truncated: bool)
    requires cap >= 1
    ensures truncated <==> offset + cap < |Flatten(stream.chunks)|
    ensures bytes == if stream.breaks && !truncated then None else Some(Slice(Flatten(stream.chunks), offset, cap))
  {
    var kept: seq<Byte> := [];
    var position, i := 0, 0;
    truncated := false;
    while i < |stream.chunks| && !truncated
      invariant 0 <= i <= |stream.chunks|
      invariant position == |Flatten(stream.chunks[..i])|
      invariant kept == Slice(Flatten(stream.chunks[..i]), offset, cap)
      invariant truncated <==> offset + cap < position
    {
      var buffer := stream.chunks[i];
      var start := if offset > position then offset - position else 0;
      assert stream.chunks[..i + 1][..i] == stream.chunks[..i];
      assert Flatten(stream.chunks[..i + 1]) == Flatten(stream.chunks[..i]) + buffer;
      SliceExtends(Flatten(stream.chunks[..i]), buffer, offset, cap);
      position := position + |buffer|;
      if start < |buffer| {
        var available := buffer[start..];
        var remaining := cap - |kept|;
        if |available| > remaining {
          kept := kept + available[..remaining];
          truncated := true;
        } else {
          kept := kept + available;
        }
      }
      i := i + 1;
    }
    FlattenPrefix(stream.chunks, i);
    if truncated {
      SliceOfPrefix(Flatten(stream.chunks), position, offset, cap);
    } else {
      assert stream.chunks[..i] == stream.chunks;
    }
    bytes := if stream.breaks && !truncated then None else Some(kept);
  }

  // ----- one service call and its continuation -----

  datatype ReadError = NoProgress | StreamBroken | SourceUnavailable

  datatype Window = Window(bytes: seq<Byte>, next: Option<nat>)

  datatype ReadResult = Read(window: Window) | ReadFailed(error: ReadError)

  /** `limit` is the configured maximum, `cap` the adapter's own; the stream delivered content in any chunks. */
  method FetchAttachment(stream: Stream, offset: nat, maxBytes: int, limit: nat, adapterLimit: nat)
    returns (r: ReadResult)
    ensures r == FetchSpec(Flatten(stream.chunks), stream.breaks, offset, AttachmentCap(maxBytes, limit, adapterLimit))
  {
    var cap := AttachmentCap(maxBytes, limit, adapterLimit);
    var bytes, truncated := ReadWindow(stream, offset, cap);
    if bytes.None? { return ReadFailed(StreamBroken); }
    if truncated && |bytes.value| == 0 { return ReadFailed(NoProgress); }
    return Read(Window(bytes.value, if truncated then Some(offset + |bytes.value|) else None));
  }

  function AttachmentCap(maxBytes: int, limit: nat, adapterLimit: nat): (cap: nat)
    ensures cap >= 1
  {
    var wanted := Min(Clamp(maxBytes, limit), adapterLimit);
    if wanted < 1 then 1 else wanted
  }

  /** One call returns exactly as many bytes as were asked for, at least 1 and at most the configured and the adapter's
      limit (of which no one counts as less than 1), or what is left of the content if that is less; and it says where
      to go on exactly if something is left after it. */
  lemma CallIsExact(content: seq<Byte>, offset: nat, maxBytes: int, limit: nat, adapterLimit: nat)
    requires limit >= 1 && adapterLimit >= 1
    ensures var r := FetchSpec(content, false, offset, AttachmentCap(maxBytes, limit, adapterLimit));
            var least := if limit < adapterLimit then limit else adapterLimit;
            var asked := if maxBytes < 1 then 1 else if maxBytes > least then least else maxBytes;
            var left := if offset < |content| then |content| - offset else 0;
            && r.Read? && |r.window.bytes| == (if left < asked then left else asked)
            && (forall i | 0 <= i < |r.window.bytes| :: r.window.bytes[i] == content[offset + i])
            && r.window.next == (if left > asked then Some(offset + asked) else None)
  {
    ClampIsExact(maxBytes, limit);
  }

  /** The same of one call for the raw source when the server tells its size. */
  lemma RawCallIsExact(content: seq<Byte>, offset: nat, maxBytes: int, limit: nat, adapterLimit: nat)
    requires limit >= 1 && adapterLimit >= 1
    ensures var r := FetchRaw(content, true, offset, maxBytes, limit, adapterLimit);
            var least := if limit < adapterLimit then limit else adapterLimit;
            var asked := if maxBytes < 1 then 1 else if maxBytes > least then least else maxBytes;
            var left := if offset < |content| then |content| - offset else 0;
            && r.Read? && |r.window.bytes| == (if left < asked then left else asked)
            && (forall i | 0 <= i < |r.window.bytes| :: r.window.bytes[i] == content[offset + i])
            && r.window.next == (if left > asked then Some(offset + asked) else None)
  {
    ClampIsExact(maxBytes, limit);
  }

  function FetchSpec(content: seq<Byte>, breaks: bool, offset: nat, cap: nat): ReadResult
    requires cap >= 1
  {
    if offset + cap < |content| then Read(Window(Slice(content, offset, cap), Some(offset + cap)))
    else if breaks then ReadFailed(StreamBroken)
    else Read(Window(Slice(content, offset, cap), None))
  }

  /** Following the continuation offset with any window sizes, each call on an unbroken stream. */
  function Walk(content: seq<Byte>, caps: seq<nat>, i: nat, offset: nat): Option<seq<Byte>>
    requires i <= |caps| && forall k | 0 <= k < |caps| :: caps[k] >= 1
    decreases |caps| - i
  {
    if i == |caps| then None
    else
      match FetchSpec(content, false, offset, caps[i])
      case ReadFailed(_) => None
      case Read(w) =>
        if w.next.None? then Some(w.bytes)
        else
          var rest := Walk(content, caps, i + 1, w.next.value);
          if rest.None? then None else Some(w.bytes + rest.value)
  }

  lemma SliceThenRest(content: seq<Byte>, offset: nat, cap: nat)
    requires offset + cap < |content|
    ensures Slice(content, offset, cap) + content[offset + cap..] == content[offset..]
  {
  }

  lemma WalkStep(content: seq<Byte>, caps: seq<nat>, i: nat, offset: nat)
    requires i < |caps| && forall k | 0 <= k < |caps| :: caps[k] >= 1
    requires offset <= |content|
    ensures var walk := Walk(content, caps, i, offset);
            if offset + caps[i] < |content| then
              var rest := Walk(content, caps, i + 1, offset + caps[i]);
              walk == if rest.None? then None else Some(Slice(content, offset, caps[i]) + rest.value)
            else walk == Some(content[offset..])
  {
    if offset + caps[i] >= |content| {
      assert Slice(content, offset, caps[i]) == content[offset..];
    }
  }

  lemma {:induction false} WalkIsContent(content: seq<Byte>, caps: seq<nat>, i: nat, offset: nat)
    requires i <= |caps| && forall k | 0 <= k < |caps| :: caps[k] >= 1
    requires offset <= |content|
    ensures Walk(content, caps, i, offset).Some? ==> Walk(content, caps, i, offset).value == content[offset..]
    decreases |caps| - i
  {
    if i < |caps| {
      WalkStep(content, caps, i, offset);
      if offset + caps[i] < |content| {
        WalkIsContent(content, caps, i + 1, offset + caps[i]);
        SliceThenRest(content, offset, caps[i]);
      }
    }
  }

  lemma {:induction false} WalkFinishes(content: seq<Byte>, caps: seq<nat>, i: nat, offset: nat)
    requires i < |caps| && forall k | 0 <= k < |caps| :: caps[k] >= 1
    requires offset <= |content| && |content| - offset <= |caps| - i
    ensures Walk(content, caps, i, offset).Some?
    decreases |caps| - i
  {
    WalkStep(content, caps, i, offset);
    if offset + caps[i] < |content| {
      WalkFinishes(content, caps, i + 1, offset + caps[i]);
    }
  }

  /** A finished walk is the rest of the content, byte for byte; and enough calls always finish it. */
  lemma WalkReadsEverything(content: seq<Byte>, caps: seq<nat>, i: nat, offset: nat)
    requires i <= |caps| && forall k | 0 <= k < |caps| :: caps[k] >= 1
    requires offset <= |content|
    ensures Walk(content, caps, i, offset).Some? ==> Walk(content, caps, i, offset).value == content[offset..]
    ensures i < |caps| && |content| - offset <= |caps| - i ==> Walk(content, caps, i, offset).Some?
  {
    WalkIsContent(content, caps, i, offset);
    if i < |caps| && |content| - offset <= |caps| - i {
      WalkFinishes(content, caps, i, offset);
    }
  }

  // ----- raw source -----

  /** The server returns the requested range, cut at its own limit and at the end; it may not say the total. */
  function FetchRaw(
    content: seq<Byte>, sizeKnown: bool, offset: nat, maxBytes: int, limit: nat, adapterLimit: nat): ReadResult
  {
    var window := Clamp(maxBytes, limit);
    var chunk := Slice(content, offset, Min(window, adapterLimit));
    if |chunk| == 0 && (!sizeKnown || offset < |content|) then ReadFailed(SourceUnavailable)
    else
      var delivered := offset + |chunk|;
      var more := if sizeKnown then delivered < |content| else |chunk| == window;
      Read(Window(chunk, if more then Some(delivered) else None))
  }

  /** Following the continuation offset, asking for another number of bytes in every call. */
  function RawWalk(
    content: seq<Byte>, sizeKnown: bool, wanted: seq<int>, limit: nat, adapterLimit: nat, offset: nat)
    : Option<seq<Byte>>
  {
    if wanted == [] then None
    else
      match FetchRaw(content, sizeKnown, offset, wanted[0], limit, adapterLimit)
      case ReadFailed(_) => None
      case Read(w) =>
        if w.next.None? then Some(w.bytes)
        else
          var rest := RawWalk(content, sizeKnown, wanted[1..], limit, adapterLimit, w.next.value);
          if rest.None? then None else Some(w.bytes + rest.value)
  }

  /** With the total size known the walk delivers the whole message, whatever windows it asks for. */
  lemma {:induction false} RawWalkWithSize(
    content: seq<Byte>, wanted: seq<int>, limit: nat, adapterLimit: nat, offset: nat)
    requires limit >= 1 && adapterLimit >= 1 && offset <= |content| && |wanted| > |content| - offset
    ensures RawWalk(content, true, wanted, limit, adapterLimit, offset) == Some(content[offset..])
  {
    var step := Min(Clamp(wanted[0], limit), adapterLimit);
    if offset + step < |content| {
      assert FetchRaw(content, true, offset, wanted[0], limit, adapterLimit)
          == Read(Window(Slice(content, offset, step), Some(offset + step)));
      RawWalkWithSize(content, wanted[1..], limit, adapterLimit, offset + step);
      SliceThenRest(content, offset, step);
    } else {
      assert Slice(content, offset, step) == content[offset..];
    }
  }

  /** Without being told the total size, the walk ends and has everything from `offset` on. */
  predicate Delivers(content: seq<Byte>, wanted: seq<int>, limit: nat, adapterLimit: nat, offset: nat)
    requires offset <= |content|
  {
    RawWalk(content, false, wanted, limit, adapterLimit, offset) == Some(content[offset..])
  }

  /** The bytes that the first i calls ask for together. */
  function Asked(wanted: seq<int>, limit: nat, i: nat): nat
    requires i <= |wanted|
  {
    if i == 0 then 0 else Clamp(wanted[0], limit) + Asked(wanted[1..], limit, i - 1)
  }

  predicate FitsAdapter(wanted: seq<int>, limit: nat, adapterLimit: nat, i: nat)
    requires i <= |wanted|
  {
    forall j | 0 <= j < i :: Clamp(wanted[j], limit) <= adapterLimit
  }

  /** Call i is the first to ask for more than is left, it has something left to deliver, and the adapter cuts
      neither it nor any call before it. */
  predicate EndsAt(left: nat, wanted: seq<int>, limit: nat, adapterLimit: nat, i: nat) {
    && i < |wanted| && FitsAdapter(wanted, limit, adapterLimit, i)
    && Asked(wanted, limit, i) < left < Asked(wanted, limit, i + 1)
    && left - Asked(wanted, limit, i) <= adapterLimit
  }

  predicate Ends(left: nat, wanted: seq<int>, limit: nat, adapterLimit: nat) {
    exists i | 0 <= i < |wanted| :: EndsAt(left, wanted, limit, adapterLimit, i)
  }

  lemma FirstAsked(wanted: seq<int>, limit: nat)
    requires wanted != []
    ensures Asked(wanted, limit, 0) == 0 && Asked(wanted, limit, 1) == Clamp(wanted[0], limit)
  {
    assert Asked(wanted[1..], limit, 0) == 0;
  }

  lemma EndsLater(left: nat, wanted: seq<int>, limit: nat, adapterLimit: nat, i: nat)
    requires wanted != [] && Clamp(wanted[0], limit) <= left && Clamp(wanted[0], limit) <= adapterLimit
    requires i < |wanted| - 1
    ensures EndsAt(left, wanted, limit, adapterLimit, i + 1)
       <==> EndsAt(left - Clamp(wanted[0], limit), wanted[1..], limit, adapterLimit, i)
  {
    var rest := wanted[1..];
    assert forall j | 0 <= j < |rest| :: rest[j] == wanted[j + 1];
    if FitsAdapter(rest, limit, adapterLimit, i) {
      forall j | 0 <= j < i + 1 ensures Clamp(wanted[j], limit) <= adapterLimit {
        assert j > 0 ==> rest[j - 1] == wanted[j];
      }
    }
  }

  lemma EndsAfterFull(left: nat, wanted: seq<int>, limit: nat, adapterLimit: nat)
    requires wanted != [] && Clamp(wanted[0], limit) <= left && Clamp(wanted[0], limit) <= adapterLimit
    ensures Ends(left, wanted, limit, adapterLimit)
       <==> Ends(left - Clamp(wanted[0], limit), wanted[1..], limit, adapterLimit)
  {
    var rest, less := wanted[1..], left - Clamp(wanted[0], limit);
    FirstAsked(wanted, limit);
    assert !EndsAt(left, wanted, limit, adapterLimit, 0);
    if Ends(left, wanted, limit, adapterLimit) {
      var i :| 0 <= i < |wanted| && EndsAt(left, wanted, limit, adapterLimit, i);
      EndsLater(left, wanted, limit, adapterLimit, i - 1);
    }
    if Ends(less, rest, limit, adapterLimit) {
      var i :| 0 <= i < |rest| && EndsAt(less, rest, limit, adapterLimit, i);
      EndsLater(left, wanted, limit, adapterLimit, i);
      assert EndsAt(left, wanted, limit, adapterLimit, i + 1);
    }
  }

  lemma EndsNowOrNever(left: nat, wanted: seq<int>, limit: nat, adapterLimit: nat)
    requires wanted != [] && (left < Clamp(wanted[0], limit) || adapterLimit < Clamp(wanted[0], limit))
    ensures Ends(left, wanted, limit, adapterLimit) <==> 0 < left < Clamp(wanted[0], limit) && left <= adapterLimit
  {
    FirstAsked(wanted, limit);
    assert EndsAt(left, wanted, limit, adapterLimit, 0) <==>
           0 < left < Clamp(wanted[0], limit) && left <= adapterLimit;
    forall i | 1 <= i < |wanted| ensures !EndsAt(left, wanted, limit, adapterLimit, i) {
      assert Asked(wanted, limit, i) >= Clamp(wanted[0], limit);
    }
  }

  /** Without the total size the walk delivers the whole message if and only if one of its calls ends it: the first
      that asks for more than is left, provided something is left for it and the adapter cuts no call so far. A full
      last window is taken for "more", and the empty one after it for a failure. */
  lemma {:induction false} RawWalkWithoutSize(
    content: seq<Byte>, wanted: seq<int>, limit: nat, adapterLimit: nat, offset: nat)
    requires limit >= 1 && adapterLimit >= 1 && offset <= |content|
    ensures Delivers(content, wanted, limit, adapterLimit, offset)
       <==> Ends(|content| - offset, wanted, limit, adapterLimit)
  {
    if wanted == [] {
    } else if Clamp(wanted[0], limit) <= adapterLimit && Clamp(wanted[0], limit) <= |content| - offset {
      FullWindow(content, wanted, limit, adapterLimit, offset);
      RawWalkWithoutSize(content, wanted[1..], limit, adapterLimit, offset + Clamp(wanted[0], limit));
      EndsAfterFull(|content| - offset, wanted, limit, adapterLimit);
    } else {
      FinalWindow(content, wanted, limit, adapterLimit, offset);
      EndsNowOrNever(|content| - offset, wanted, limit, adapterLimit);
    }
  }

  /** A window filled to the brim passes the walk on to the next call. */
  lemma FullWindow(content: seq<Byte>, wanted: seq<int>, limit: nat, adapterLimit: nat, offset: nat)
    requires limit >= 1 && wanted != []
    requires Clamp(wanted[0], limit) <= adapterLimit && offset + Clamp(wanted[0], limit) <= |content|
    ensures var next := offset + Clamp(wanted[0], limit);
            Delivers(content, wanted, limit, adapterLimit, offset)
            <==> Delivers(content, wanted[1..], limit, adapterLimit, next)
  {
    var window := Clamp(wanted[0], limit);
    assert FetchRaw(content, false, offset, wanted[0], limit, adapterLimit)
        == Read(Window(content[offset..offset + window], Some(offset + window)));
    PrefixCancels(content, offset, window, RawWalk(content, false, wanted[1..], limit, adapterLimit, offset + window));
  }

  /** A window that is not filled ends the walk: with the whole rest, or short of it. */
  lemma FinalWindow(content: seq<Byte>, wanted: seq<int>, limit: nat, adapterLimit: nat, offset: nat)
    requires limit >= 1 && adapterLimit >= 1 && wanted != [] && offset <= |content|
    requires adapterLimit < Clamp(wanted[0], limit) || |content| - offset < Clamp(wanted[0], limit)
    ensures Delivers(content, wanted, limit, adapterLimit, offset)
       <==> 0 < |content| - offset < Clamp(wanted[0], limit) && |content| - offset <= adapterLimit
  {
    LastRawWindow(content, wanted[0], limit, adapterLimit, offset);
  }

  function Repeated(wanted: int, calls: nat): seq<int> {
    seq(calls, _ => wanted)
  }

  /** With one window throughout, and calls enough: the length must be no multiple of the window, and the window no
      larger than the adapter's limit unless the rest fits into that at once. */
  lemma {:induction false} RawWalkSameWindow(
    content: seq<Byte>, wanted: int, limit: nat, adapterLimit: nat, offset: nat, calls: nat)
    requires limit >= 1 && adapterLimit >= 1 && offset <= |content| && calls > |content| - offset
    ensures var window := Clamp(wanted, limit);
            Delivers(content, Repeated(wanted, calls), limit, adapterLimit, offset)
            <==> (|content| - offset) % window != 0 && (window <= adapterLimit || |content| - offset <= adapterLimit)
    decreases calls
  {
    var window := Clamp(wanted, limit);
    var left := |content| - offset;
    assert Repeated(wanted, calls)[1..] == Repeated(wanted, calls - 1);
    if window <= adapterLimit && window <= left {
      FullWindow(content, Repeated(wanted, calls), limit, adapterLimit, offset);
      RawWalkSameWindow(content, wanted, limit, adapterLimit, offset + window, calls - 1);
      ModStep(left, window);
    } else {
      FinalWindow(content, Repeated(wanted, calls), limit, adapterLimit, offset);
      if left < window {
        SmallRemainder(left, window);
      }
    }
  }

  lemma SmallRemainder(a: nat, w: nat)
    requires a < w
    ensures a % w == a
  {
  }

  lemma PrefixCancels(content: seq<Byte>, offset: nat, window: nat, rest: Option<seq<Byte>>)
    requires offset + window <= |content|
    ensures rest == Some(content[offset + window..])
       <==> rest.Some? && content[offset..offset + window] + rest.value == content[offset..]
  {
    var head := content[offset..offset + window];
    assert content[offset..] == head + content[offset + window..];
    if rest.Some? && head + rest.value == content[offset..] {
      assert rest.value == (head + rest.value)[window..] == content[offset..][window..];
    }
  }

  lemma LastRawWindow(content: seq<Byte>, maxBytes: int, limit: nat, adapterLimit: nat, offset: nat)
    requires limit >= 1 && adapterLimit >= 1 && offset <= |content|
    requires adapterLimit < Clamp(maxBytes, limit) || |content| - offset < Clamp(maxBytes, limit)
    ensures var r := FetchRaw(content, false, offset, maxBytes, limit, adapterLimit);
            && (r.Read? <==> offset < |content|)
            && (r.Read? ==>
                  && r.window.next.None?
                  && (r.window.bytes == content[offset..]
                      <==> |content| - offset <= Min(Clamp(maxBytes, limit), adapterLimit)))
  {
    var step := Min(Clamp(maxBytes, limit), adapterLimit);
    var left := |content| - offset;
    assert |Slice(content, offset, step)| == Min(step, left);
    if left <= step {
      assert Slice(content, offset, step) == content[offset..];
    }
  }

  lemma ModStep(a: nat, w: nat)
    requires 1 <= w <= a
    ensures a % w == (a - w) % w
  {
    var q, r := a / w, a % w;
    assert a - w == (q - 1) * w + r;
    RemainderIsUnique(q - 1, r, w);
  }

  lemma RemainderIsUnique(q: int, r: nat, w: nat)
    requires r < w
    ensures (q * w + r) % w == r
  {
    var a := q * w + r;
    var k := q - a / w;
    assert k * w == a % w - r;
    if k >= 1 {
      AtLeastOnce(k, w);
    } else if k <= -1 {
      AtLeastOnce(-k, w);
    }
  }

  lemma AtLeastOnce(k: nat, w: nat)
    requires k >= 1
    ensures k * w >= w
  {
  }
}
