/** The buffered writer (src/bufwr.c) over the retry loop of `fd_write` (src/fd.c). */
module BufWriter {
  import opened Bits

  const SSIZE_MAX: nat := 0x7fff_ffff_ffff_ffff
  const DEFAULT_BUF_SIZE: nat := 8192
  const MAX_BUF_SIZE: nat := 0x8_0000_0000

  // ---- the system below ----

  /** What one call of write(2) does: accept up to n bytes, be interrupted, find the
      descriptor not ready (and poll succeed or not), or fail for good. */
  datatype Outcome = Wrote(n: nat) | Interrupted | NotReady(pollOk: bool) | Failed

  function Min(a: nat, b: nat): nat { if a < b then a else b }

  /** A file descriptor's far end. The plan says how the calls to come will go; when it is
      used up they fail. */
  class Sink {
    var bytes: seq<u8>
    var plan: seq<Outcome>

    constructor (plan: seq<Outcome>)
      ensures bytes == [] && this.plan == plan
    {
      bytes, this.plan := [], plan;
    }

    /** write(2): the bytes accepted, or -1 and the outcome that says why. */
    method Write(fd: int, chunk: seq<u8>) returns (ret: int, why: Outcome)
      modifies this
      ensures fd < 0 || old(plan) == [] ==> ret == -1 && why == Failed && bytes == old(bytes) && plan == old(plan)
      ensures fd >= 0 && old(plan) != [] ==>
                && why == old(plan)[0] && plan == old(plan)[1..]
                && ret == (if why.Wrote? then Min(why.n, |chunk|) else -1)
                && bytes == old(bytes) + chunk[..if why.Wrote? then Min(why.n, |chunk|) else 0]
    {
      if fd < 0 || plan == [] {
        return -1, Failed;
      }
      why := plan[0];
      plan := plan[1..];
      if why.Wrote? {
        var k := Min(why.n, |chunk|);
        bytes := bytes + chunk[..k];
        ret := k;
      } else {
        ret := -1;
      }
    }
  }

  // ---- fd_write ----

  /** How many of len bytes a schedule delivers before the loop ends, whether it then
      reports success, and the schedule left over. */
  datatype Delivery = Delivery(count: nat, ok: bool, rest: seq<Outcome>)

  function Deliver(plan: seq<Outcome>, len: nat): (d: Delivery)
    ensures d.count <= len
    decreases |plan|
  {
    if plan == [] then Delivery(0, false, [])
    else
      match plan[0]
      case Wrote(n) =>
        var k := Min(n, Min(len, SSIZE_MAX));
        if k == 0 then Delivery(0, false, plan[1..])
        else if k == len then Delivery(len, true, plan[1..])
        else var d := Deliver(plan[1..], len - k); Delivery(k + d.count, d.ok, d.rest)
      case Interrupted => Deliver(plan[1..], len)
      case NotReady(pollOk) => if pollOk then Deliver(plan[1..], len) else Delivery(0, false, plan[1..])
      case Failed => Delivery(0, false, plan[1..])
  }

  /** Success is reported exactly when something was to be written and all of it was. */
  lemma {:induction false} SuccessIsComplete(plan: seq<Outcome>, len: nat)
    ensures Deliver(plan, len).ok <==> len > 0 && Deliver(plan, len).count == len
    decreases |plan|
  {
    if plan != [] {
      match plan[0] {
        case Wrote(n) =>
          var k := Min(n, Min(len, SSIZE_MAX));
          if 0 < k < len {
            SuccessIsComplete(plan[1..], len - k);
          }
        case Interrupted => SuccessIsComplete(plan[1..], len);
        case NotReady(pollOk) =>
          if pollOk {
            SuccessIsComplete(plan[1..], len);
          }
        case Failed =>
      }
    }
  }

  /** When the loop goes on and when it ends, for a write of at most SSIZE_MAX bytes: an
      interruption, and a wait that ends well, change nothing; an error, a failed wait, a used
      up schedule and a write of no bytes end it; a short write goes on with what is left. */
  lemma {:induction false} DeliverInNumbers(plan: seq<Outcome>, len: nat)
    requires 0 < len <= 0x7fff_ffff_ffff_ffff
    ensures plan == [] ==> Deliver(plan, len) == Delivery(0, false, [])
    ensures plan != [] ==>
              Deliver(plan, len) == match plan[0]
                                    case Interrupted => Deliver(plan[1..], len)
                                    case NotReady(true) => Deliver(plan[1..], len)
                                    case NotReady(false) => Delivery(0, false, plan[1..])
                                    case Failed => Delivery(0, false, plan[1..])
                                    case Wrote(n) =>
                                      if n == 0 then Delivery(0, false, plan[1..])
                                      else if n >= len then Delivery(len, true, plan[1..])
                                      else var d := Deliver(plan[1..], len - n); Delivery(n + d.count, d.ok, d.rest)
  {
  }

  /** One call of write(2), as the loop meets it. */
  lemma {:induction false} DeliverUnfolds(plan: seq<Outcome>, len: nat)
    ensures plan == [] ==> Deliver(plan, len) == Delivery(0, false, [])
    ensures plan != [] && plan[0].Wrote? ==>
              var k := Min(plan[0].n, Min(len, SSIZE_MAX));
              var d := Deliver(plan[1..], len - k);
              Deliver(plan, len) == if k == 0 then Delivery(0, false, plan[1..])
                                    else if k == len then Delivery(len, true, plan[1..])
                                    else Delivery(k + d.count, d.ok, d.rest)
    ensures plan != [] && !plan[0].Wrote? ==>
              Deliver(plan, len) == if IsRetry(plan[0]) then Deliver(plan[1..], len) else Delivery(0, false, plan[1..])
  {
  }

  lemma TakeMore(data: seq<u8>, ptr: nat, size: nat, k: nat)
    requires k <= size && ptr + size <= |data|
    ensures data[..ptr] + data[ptr..ptr + size][..k] == data[..ptr + k]
  {
  }

  predicate IsRetry(o: Outcome) { o.Interrupted? || (o.NotReady? && o.pollOk) }

  /** The schedule without its interruptions and waits. */
  function Smooth(plan: seq<Outcome>): seq<Outcome>
  {
    if plan == [] then [] else (if IsRetry(plan[0]) then [] else [plan[0]]) + Smooth(plan[1..])
  }

  /** EINTR and EAGAIN do not show: the same bytes are delivered with the same report. */
  lemma {:induction false} RetriesDoNotShow(plan: seq<Outcome>, len: nat)
    ensures var d := Deliver(plan, len); Deliver(Smooth(plan), len) == Delivery(d.count, d.ok, Smooth(d.rest))
    decreases |plan|
  {
    if plan != [] {
      var tail := Smooth(plan[1..]);
      if IsRetry(plan[0]) {
        assert Smooth(plan) == tail;
        RetriesDoNotShow(plan[1..], len);
      } else {
        assert Smooth(plan)[0] == plan[0] && Smooth(plan)[1..] == tail;
        if plan[0].Wrote? {
          var k := Min(plan[0].n, Min(len, SSIZE_MAX));
          if 0 < k < len {
            RetriesDoNotShow(plan[1..], len - k);
          }
        }
      }
    }
  }

  /** The retry loop: whatever the schedule, the sink receives a prefix of the data, and all
      of it when the call reports success. */
  method FdWrite(sink: Sink, fd: int, data: seq<u8>) returns (ok: bool)
    modifies sink
    ensures fd < 0 ==> !ok && sink.bytes == old(sink.bytes) && sink.plan == old(sink.plan)
    ensures fd >= 0 ==>
              var d := Deliver(old(sink.plan), |data|);
              sink.bytes == old(sink.bytes) + data[..d.count] && ok == d.ok && sink.plan == d.rest
    ensures ok ==> data != [] && sink.bytes == old(sink.bytes) + data
  {
    hide Deliver;
    ghost var d := Deliver(sink.plan, |data|);
    SuccessIsComplete(sink.plan, |data|);
    assert data[..|data|] == data;
    var ptr: nat, remains: nat := 0, |data|;
    while true
      invariant ptr + remains == |data|
      invariant sink.bytes == old(sink.bytes) + data[..ptr]
      invariant fd < 0 ==> ptr == 0 && sink.plan == old(sink.plan)
      invariant fd >= 0 ==>
                  var r := Deliver(sink.plan, remains);
                  d == Delivery(ptr + r.count, r.ok, r.rest)
      decreases fd >= 0, |sink.plan|
    {
      var size := remains;
      if size > SSIZE_MAX {
        size := SSIZE_MAX;
      }
      DeliverUnfolds(sink.plan, remains);
      var ret, why := sink.Write(fd, data[ptr..ptr + size]);
      if ret < 0 {
        if why.Interrupted? {
          continue;
        }
        if why.NotReady? && why.pollOk {
          continue;
        }
        return false;
      }
      if ret == 0 {
        return false;
      }
      TakeMore(data, ptr, size, ret);
      remains := remains - ret;
      ptr := ptr + ret;
      if remains == 0 {
        return true;
      }
    }
  }

  // ---- the writer as a function ----

  /** A writer and the far end it writes to: what has arrived, what is buffered, and how the
      system calls to come will go. */
  datatype Stream = Stream(sent: seq<u8>, held: seq<u8>, plan: seq<Outcome>) {
    /** All that has been handed over, as far as the far end will see it. */
    function Total(): seq<u8> { sent + held }
  }

  /** A new state and the report of the call. */
  type Step = (Stream, bool)

  /** fd_write of data on an open or a closed descriptor. */
  function SendStep(s: Stream, open: bool, data: seq<u8>): Step
  {
    if !open then (s, false)
    else var d := Deliver(s.plan, |data|); (s.(sent := s.sent + data[..d.count], plan := d.rest), d.ok)
  }

  /** A writer without a descriptor throws its buffer away. A failed flush keeps all of it,
      whatever part has been sent. */
  function FlushStep(s: Stream, open: bool): Step
  {
    if !open then (s.(held := []), true)
    else var r := SendStep(s, open, s.held); (if r.1 then r.0.(held := []) else r.0, r.1)
  }

  /** bufwr_write: around the buffer, through it after filling and flushing it, or into it. */
  function WriteStep(s: Stream, open: bool, max: nat, data: seq<u8>): (r: Step)
    requires |s.held| <= max
    ensures |r.0.held| <= max
  {
    var space := max - |s.held|;
    if |data| >= space + max then
      var f := FlushStep(s, open); if f.1 then SendStep(f.0, open, data) else f
    else if |data| > space then
      var f := FlushStep(s.(held := s.held + data[..space]), open);
      (if f.1 then f.0.(held := data[space..]) else f.0, f.1)
    else (s.(held := s.held + data), true)
  }

  /** The three paths of a write on an open descriptor, each in full: what fits is only
      buffered; what is smaller than the space and another buffer fills the buffer, which is
      sent, and the rest is kept, unless the sending fails; and anything larger is sent after
      what was buffered, in two calls, and none of it is kept. */
  lemma {:induction false} WritePaths(s: Stream, max: nat, data: seq<u8>)
    requires |s.held| <= max
    ensures var r, space := WriteStep(s, true, max, data), max - |s.held|;
            && (|data| <= space && |data| < space + max ==> r == (s.(held := s.held + data), true))
            && (space < |data| < space + max ==>
                  var full := s.held + data[..space];
                  var d := Deliver(s.plan, max);
                  r == (Stream(s.sent + full[..d.count], if d.ok then data[space..] else full, d.rest), d.ok))
            && (|data| >= space + max ==>
                  var d1 := Deliver(s.plan, |s.held|);
                  var d2 := Deliver(d1.rest, |data|);
                  r == if d1.ok then (Stream(s.sent + s.held[..d1.count] + data[..d2.count], [], d2.rest), d2.ok)
                       else (Stream(s.sent + s.held[..d1.count], s.held, d1.rest), false))
  {
    hide Deliver;
  }

  /** bufwr_flush: nothing to do on an empty buffer. */
  function BufFlushStep(s: Stream, open: bool): Step
  {
    if s.held == [] then (s, true) else FlushStep(s, open)
  }

  /** A flush in full: nothing happens on an empty buffer; otherwise what is buffered is sent
      and forgotten, or, if that fails, kept whole. */
  lemma FlushPaths(s: Stream)
    ensures s.held == [] ==> BufFlushStep(s, true) == (s, true)
    ensures s.held != [] ==>
              var d := Deliver(s.plan, |s.held|);
              BufFlushStep(s, true) == (Stream(s.sent + s.held[..d.count], if d.ok then [] else s.held, d.rest), d.ok)
  {
    hide Deliver;
  }

  /** A writer without a descriptor sends nothing: a flush throws the buffer away, and so does
      a write that needs room, which keeps the rest of its data; a write that would go around
      the buffer throws the buffer away and fails. */
  lemma WithoutDescriptor(s: Stream, max: nat, data: seq<u8>)
    requires |s.held| <= max
    ensures BufFlushStep(s, false) == (s.(held := []), true)
    ensures var r, space := WriteStep(s, false, max, data), max - |s.held|;
            r == if |data| >= space + max then (s.(held := []), false)
                 else if |data| > space then (s.(held := data[space..]), true)
                 else (s.(held := s.held + data), true)
  {
  }

  // ---- sessions ----

  datatype Call = WriteCall(data: seq<u8>) | FlushCall

  function CallStep(s: Stream, max: nat, c: Call): (r: Step)
    requires |s.held| <= max
    ensures |r.0.held| <= max
  {
    match c
    case WriteCall(data) => WriteStep(s, true, max, data)
    case FlushCall => BufFlushStep(s, true)
  }

  function Payload(c: Call): seq<u8> { match c case WriteCall(data) => data case FlushCall => [] }

  /** All data written, in order. */
  function Concat(calls: seq<Call>): seq<u8>
  {
    if calls == [] then [] else Payload(calls[0]) + Concat(calls[1..])
  }

  /** A caller that makes its calls in turn and stops at the first that fails. */
  function Session(s: Stream, max: nat, calls: seq<Call>): (r: Step)
    requires |s.held| <= max
    decreases |calls|
  {
    if calls == [] then (s, true)
    else var r := CallStep(s, max, calls[0]); if r.1 then Session(r.0, max, calls[1..]) else r
  }

  lemma PrefixOfSum(a: seq<u8>, b: seq<u8>, n: nat)
    requires n <= |b|
    ensures a + b[..n] <= a + b
    ensures b[..n] + b[n..] == b
  {
  }

  lemma SendKeepsStream(s: Stream, open: bool, data: seq<u8>)
    ensures var r := SendStep(s, open, data);
            && r.0.held == s.held && s.sent <= r.0.sent <= s.sent + data
            && (r.1 ==> data != [] && r.0.sent == s.sent + data)
  {
    hide Deliver;
    SuccessIsComplete(s.plan, |data|);
    PrefixOfSum(s.sent, data, Deliver(s.plan, |data|).count);
  }

  lemma FlushKeepsStream(s: Stream)
    ensures var r := FlushStep(s, true);
            && s.sent <= r.0.sent <= s.Total()
            && (if r.1 then r.0.held == [] && r.0.sent == s.Total() && s.held != [] else r.0.held == s.held)
  {
    hide SendStep;
    SendKeepsStream(s, true, s.held);
  }

  /** One call, whichever path it takes: on success the stream grows by exactly its data;
      on failure no byte has arrived that the stream does not call for. */
  lemma CallKeepsStream(s: Stream, max: nat, c: Call)
    requires |s.held| <= max
    ensures var r := CallStep(s, max, c);
            && s.sent <= r.0.sent <= s.Total() + Payload(c)
            && (r.1 ==> r.0.Total() == s.Total() + Payload(c))
            && (r.1 && c.FlushCall? ==> r.0.held == [])
  {
    hide FlushStep, SendStep;
    match c {
      case FlushCall => FlushKeepsStream(s);
      case WriteCall(data) =>
        var space := max - |s.held|;
        if |data| >= space + max {
          FlushKeepsStream(s);
          SendKeepsStream(FlushStep(s, true).0, true, data);
        } else if |data| > space {
          var filled := s.(held := s.held + data[..space]);
          FlushKeepsStream(filled);
          PrefixOfSum(s.Total(), data, space);
          assert filled.Total() == s.Total() + data[..space];
          assert filled.Total() + data[space..] == s.Total() + (data[..space] + data[space..]);
        } else {
          assert s.sent + (s.held + data) == s.Total() + data;
        }
    }
  }

  /** The buffered stream is the unbuffered one. For any calls, any buffer size and any
      schedule of short writes, interruptions and errors: while every call succeeds, what has
      arrived followed by what is buffered is the concatenation of all that was written;
      and at the first failure what has arrived is still a prefix of it. */
  lemma {:induction false} SessionIsConcatenation(s: Stream, max: nat, calls: seq<Call>)
    requires |s.held| <= max
    ensures var r := Session(s, max, calls);
            && s.sent <= r.0.sent <= s.Total() + Concat(calls)
            && (r.1 ==> r.0.Total() == s.Total() + Concat(calls))
            && (r.1 && calls != [] && calls[|calls| - 1] == FlushCall ==> r.0.sent == s.Total() + Concat(calls))
    decreases |calls|
  {
    hide CallStep;
    if calls != [] {
      CallKeepsStream(s, max, calls[0]);
      var r := CallStep(s, max, calls[0]);
      assert s.Total() + (Payload(calls[0]) + Concat(calls[1..])) == s.Total() + Payload(calls[0]) + Concat(calls[1..]);
      if r.1 {
        SessionIsConcatenation(r.0, max, calls[1..]);
        if |calls| == 1 {
          assert calls[1..] == [];
        }
      }
    }
  }

  function Calm(s: Stream): Stream { s.(plan := Smooth(s.plan)) }

  lemma CalmSend(s: Stream, open: bool, data: seq<u8>)
    ensures SendStep(Calm(s), open, data) == (Calm(SendStep(s, open, data).0), SendStep(s, open, data).1)
  {
    hide Deliver, Smooth;
    RetriesDoNotShow(s.plan, |data|);
  }

  lemma CalmFlush(s: Stream, open: bool)
    ensures FlushStep(Calm(s), open) == (Calm(FlushStep(s, open).0), FlushStep(s, open).1)
  {
    CalmSend(s, open, s.held);
    hide SendStep, Smooth;
  }

  lemma CalmCall(s: Stream, max: nat, c: Call)
    requires |s.held| <= max
    ensures CallStep(Calm(s), max, c) == (Calm(CallStep(s, max, c).0), CallStep(s, max, c).1)
  {
    hide SendStep, FlushStep, Smooth;
    CalmFlush(s, true);
    if c.WriteCall? {
      var space := max - |s.held|;
      CalmSend(FlushStep(s, true).0, true, c.data);
      if space < |c.data| {
        CalmFlush(s.(held := s.held + c.data[..space]), true);
      }
    }
  }

  /** No caller can tell how often a call was interrupted or had to wait: a session on the
      same schedule without those outcomes sends, buffers and reports the same. */
  lemma {:induction false} SessionIgnoresRetries(s: Stream, max: nat, calls: seq<Call>)
    requires |s.held| <= max
    ensures Session(Calm(s), max, calls) == (Calm(Session(s, max, calls).0), Session(s, max, calls).1)
    decreases |calls|
  {
    hide CallStep, Calm;
    CalmHolds(s);
    if calls != [] {
      CalmCall(s, max, calls[0]);
      var r := CallStep(s, max, calls[0]);
      CalmHolds(r.0);
      if r.1 {
        SessionIgnoresRetries(r.0, max, calls[1..]);
      }
    }
  }

  lemma CalmHolds(s: Stream)
    ensures Calm(s).held == s.held
  {
  }

  /** Apart from interruptions and waits, the first thing the system does is not to take any
      bytes: it fails, reports a closed connection or takes none. */
  predicate TakesNothing(plan: seq<Outcome>)
  {
    var calm := Smooth(plan);
    calm == [] || !calm[0].Wrote? || calm[0].n == 0
  }

  lemma {:induction false} NothingDelivered(plan: seq<Outcome>, len: nat)
    requires len > 0
    ensures Deliver(plan, len).count == 0 <==> TakesNothing(plan)
  {
    RetriesDoNotShow(plan, len);
    DeliverUnfolds(Smooth(plan), len);
    SmoothHasNoRetries(plan);
    hide Deliver, Smooth;
  }

  lemma {:induction false} SmoothHasNoRetries(plan: seq<Outcome>)
    ensures Smooth(plan) != [] ==> !IsRetry(Smooth(plan)[0])
  {
    if plan != [] {
      SmoothHasNoRetries(plan[1..]);
    }
  }

  /** After a failure the promise ends: a failed flush that is tried again and succeeds has
      sent the right stream if and only if the system's first outcome for the failed one,
      retries aside, was not to take any bytes. */
  lemma RetryIsRightIffNothingSent(s: Stream)
    requires var first := FlushStep(s, true); !first.1 && FlushStep(first.0, true).1
    ensures var first := FlushStep(s, true);
            && (FlushStep(first.0, true).0.sent == s.Total() <==> TakesNothing(s.plan))
            && (first.0.sent == s.sent <==> TakesNothing(s.plan))
  {
    FlushKeepsStream(s);
    FlushKeepsStream(FlushStep(s, true).0);
    NothingDelivered(s.plan, |s.held|);
    var count := Deliver(s.plan, |s.held|).count;
    assert FlushStep(s, true).0.sent == s.sent + s.held[..count];
    hide FlushStep, TakesNothing;
    var again := FlushStep(FlushStep(s, true).0, true).0.sent;
    assert |again| == |s.sent| + count + |s.held|;
    if count == 0 {
      assert FlushStep(s, true).0.sent == s.sent;
    }
  }

  /** The failing case of the other half. */
  lemma RetriedFlushRepeats()
    ensures var s := Stream([], [1, 2], [Wrote(1), Failed, Wrote(2)]);
            FlushStep(FlushStep(s, true).0, true) == (Stream([1, 1, 2], [], []), true)
  {
    var plan := [Wrote(1), Failed, Wrote(2)];
    assert plan[1..] == [Failed, Wrote(2)] && plan[1..][1..] == [Wrote(2)] && plan[1..][1..][1..] == [];
    assert Deliver(plan, 2) == Delivery(1, false, [Wrote(2)]) by {
      assert Deliver([Failed, Wrote(2)], 1) == Delivery(0, false, [Wrote(2)]);
    }
    assert Deliver([Wrote(2)], 2) == Delivery(2, true, []);
    hide Deliver;
    var s := Stream([], [1, 2], plan);
    var first := Stream([1], [1, 2], [Wrote(2)]);
    assert SendStep(s, true, [1, 2]).0 == first;
    assert SendStep(first, true, [1, 2]).0.sent == [1, 1, 2];
  }

  /** On a descriptor that takes what it is given, a write succeeds if and only if something
      is buffered or it is smaller than two buffers: a large write into an empty buffer
      flushes that buffer first, which is reported as a hung-up connection. */
  lemma LargeWriteNeedsPending(s: Stream, max: nat, data: seq<u8>)
    requires |s.held| <= max <= SSIZE_MAX && s.plan != [] && s.plan[0].Wrote? && s.plan[0].n >= max
    requires s.held != [] ==>
               |s.plan| >= 2 && s.plan[1].Wrote? && s.plan[1].n >= |data| && |data| <= SSIZE_MAX
    ensures WriteStep(s, true, max, data).1 <==> s.held != [] || |data| < 2 * max
  {
    SuccessIsComplete(s.plan, 0);
    DeliverUnfolds(s.plan, |s.held|);
    DeliverUnfolds(s.plan, max);
    DeliverUnfolds(s.plan[1..], |data|);
    hide Deliver;
  }

  // ---- the writer in place ----

  function BufferSize(size: nat): nat
  {
    if size > 0xffff_ffff then MAX_BUF_SIZE else if size != 0 then size else DEFAULT_BUF_SIZE
  }

  class BufWr {
    var fd: int
    const buf: array<u8>
    var cur: nat
    const max: u32
    var corrupted: bool
    const sink: Sink

    ghost predicate Valid()
      reads this
    {
      cur <= max <= buf.Length
    }

    ghost function View(): (s: Stream)
      requires Valid()
      reads this, buf, sink
      ensures |s.held| <= max
    {
      Stream(sink.bytes, buf[..cur], sink.plan)
    }

    /** The size is narrowed to 32 bits; a request of 4 GB or more leaves no room at all. */
    constructor (sink: Sink, fd: int, size: nat)
      ensures Valid() && this.sink == sink && this.fd == fd && fresh(buf) && !corrupted
      ensures View() == Stream(sink.bytes, [], sink.plan)
      ensures max > 0 <==> size <= 0xffff_ffff
      ensures 0 < size <= 0xffff_ffff ==> max == size
      ensures size == 0 ==> max == 8192
    {
      this.sink, this.fd := sink, fd;
      buf := new u8[BufferSize(size)](_ => 0);
      max := BufferSize(size) % WRAP32;
      cur, corrupted := 0, false;
    }

    method Flush() returns (ok: bool)
      requires Valid()
      modifies this`cur, this`corrupted, sink
      ensures Valid() && (View(), ok) == FlushStep(old(View()), fd >= 0)
      ensures ok ==> cur == 0
      ensures corrupted == (old(corrupted) || !ok)
    {
      hide Deliver;
      if fd >= 0 {
        ok := FdWrite(sink, fd, buf[..cur]);
        if !ok {
          corrupted := true;
          return false;
        }
      }
      cur := 0;
      return true;
    }

    method LargeWrite(data: seq<u8>) returns (ok: bool)
      requires Valid()
      modifies this`cur, this`corrupted, sink
      ensures Valid()
      ensures var f := FlushStep(old(View()), fd >= 0);
              (View(), ok) == if f.1 then SendStep(f.0, fd >= 0, data) else f
    {
      hide Deliver;
      ok := Flush();
      if !ok {
        return false;
      }
      ok := FdWrite(sink, fd, data);
    }

    /** memcpy to the end of what is buffered. */
    method Fill(piece: seq<u8>)
      requires Valid() && cur + |piece| <= max
      modifies this`cur, buf
      ensures Valid() && View() == old(View()).(held := old(buf[..cur]) + piece)
    {
      forall i | 0 <= i < |piece| {
        buf[cur + i] := piece[i];
      }
      assert buf[..cur + |piece|] == old(buf[..cur]) + piece;
      cur := cur + |piece|;
    }

    /** bufwr_write. */
    method Write(data: seq<u8>) returns (ok: bool)
      requires Valid()
      modifies this`cur, this`corrupted, buf, sink
      ensures Valid() && (View(), ok) == WriteStep(old(View()), fd >= 0, max, data)
    {
      hide FlushStep, SendStep;
      var space := max - cur;
      if |data| >= space + max {
        ok := LargeWrite(data);
        return;
      }
      var rest := data;
      if |data| > space {
        Fill(data[..space]);
        ok := Flush();
        if !ok {
          return false;
        }
        rest := data[space..];
        assert buf[..cur] + rest == rest;
      }
      Fill(rest);
      ok := true;
    }

    method BufFlush() returns (ok: bool)
      requires Valid()
      modifies this`cur, this`corrupted, sink
      ensures Valid() && (View(), ok) == BufFlushStep(old(View()), fd >= 0)
    {
      hide FlushStep;
      if cur == 0 {
        return true;
      }
      ok := Flush();
    }
  }
}
