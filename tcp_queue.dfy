/**
 * The TCP message-queue broker of tcpQueue.py.
 *
 * A hub process owns two FIFO queues: the consumer queue, filled in-process
 * by `sendToConsumer` and drained by remote `getConsumer` calls, and the
 * producer queue, filled by remote `sendToProducer` calls and drained by
 * `getProducer`.  Every request and reply on the wire is one frame: the
 * ASCII decimal length of the payload, a colon, then the payload bytes.
 *
 * Sockets are objects whose incoming bytes are a given sequence (`recv`
 * consumes it; an exhausted sequence reads as the peer having closed) and
 * whose `sendall` outcomes are a given sequence of success/failure values.
 * Compression and pickling are parameters (uninterpreted functions); the
 * per-queue mutexes become plain sequential access.
 *
 * Under Python 3 several tests in the source compare `bytes` with `str`
 * literals (lines 183, 185, 213, 416, 418, 506, 520) and never succeed, and
 * line 226 takes `str(sockData)[0]`, which is always 'b'.  The model follows
 * the evident byte semantics instead: the `b":"` test of line 504, the `b""`
 * test of line 432, and a command equal to the first payload byte,
 * lower-cased.  `ScanHeaderAsWritten` records what line 183 does instead.
 */
module TcpQueue {
  import opened Common
  import opened PyText

  type Bytes = seq<byte>

  /** A session worker thread, identified by its handle. */
  type Worker = nat

  const COLON: byte := 58
  const LOWER_C: byte := 99
  const LOWER_P: byte := 112

  /** The port used when none is given. */
  const DEFAULT_PORT: int := 49152

  // ---------------------------------------------------------------------------
  // Wire codec
  // ---------------------------------------------------------------------------

  /** The ASCII digits of `"%d" % n` as bytes. */
  function DecimalBytes(n: nat): (b: Bytes)
    ensures Latin1(b) == Decimal(n)
    ensures forall i :: 0 <= i < |b| ==> 48 <= b[i] <= 57
  {
    Latin1Narrow(Decimal(n));
    Narrow(Decimal(n))
  }

  /** The frame `b"%d:%s" % (len(data), data)` written by every `sendall` of the broker. */
  function Encode(payload: Bytes): Bytes
  {
    DecimalBytes(|payload|) + [COLON] + payload
  }

  /** How the length-header loop (lines 183-195, 416-421, 504-509) ends. */
  datatype HeaderScan =
    | Found(digits: Bytes)  // ':' arrived among the first nine bytes; `digits` precede it
    | TooLong               // ten bytes were read and `len(total) > 9`
    | PeerClosed            // `recv(1)` returned b"" before the header ended

  /** A header scan and the number of bytes it consumed. */
  datatype Scan = Scan(header: HeaderScan, used: nat)

  function FirstColon(s: Bytes): (k: nat)
    ensures k <= |s| && (k == |s| || s[k] == COLON)
    ensures forall j :: 0 <= j < k ==> s[j] != COLON
  {
    if s == [] || s[0] == COLON then 0 else 1 + FirstColon(s[1..])
  }

  /**
   * The header reader: bytes are read one at a time until ':' or until ten
   * bytes have been read; a header of ten bytes is refused, so ':' must be
   * among the first nine and at most eight digit bytes precede it.
   */
  function ScanHeader(input: Bytes): (r: Scan)
    ensures r.used <= |input| && r.used <= 10
  {
    var w := input[..Min(10, |input|)];
    var k := FirstColon(w);
    if k < |w| then
      (if k < 9 then Scan(Found(input[..k]), k + 1) else Scan(TooLong, 10))
    else if |w| == 10 then Scan(TooLong, 10)
    else Scan(PeerClosed, |input|)
  }

  /**
   * The three ways the header scan ends, each characterised by the input:
   * ':' within the first nine bytes, ten bytes without it among the first
   * nine, or fewer than ten bytes without any ':'.
   */
  lemma ScanHeaderCases(input: Bytes)
    ensures var r := ScanHeader(input);
      && (r.header.Found? ==>
        var d := r.header.digits;
        |d| <= 8 && r.used == |d| + 1 && input[..|d|] == d && input[|d|] == COLON && COLON !in d)
      && (r.header.TooLong? <==> |input| >= 10 && COLON !in input[..9])
      && (r.header.TooLong? ==> r.used == 10)
      && (r.header.PeerClosed? <==> |input| < 10 && COLON !in input)
      && (r.header.PeerClosed? ==> r.used == |input|)
  {
    var w := input[..Min(10, |input|)];
    var k := FirstColon(w);
    if k < |w| && k < 9 {
      assert input[..k] == w[..k];
      assert input[k] == w[k];
    }
    if k == |w| && |w| == 10 {
      assert forall j :: 0 <= j < 9 ==> input[..9][j] == w[j];
    }
    if k == |w| && |w| < 10 {
      assert w == input;
    }
    if k < |w| && 9 <= k {
      assert forall j :: 0 <= j < 9 ==> input[..9][j] == w[j];
    }
  }

  /** How reading one frame ends. */
  datatype FrameRead =
    | Frame(payload: Bytes)
    | Closed     // the peer closed during the header or the payload
    | Oversized  // no ':' among the first nine bytes
    | BadLength  // `int(total[:-1])` raised ValueError

  datatype Read = Read(frame: FrameRead, used: nat)

  /** `int(total[:-1])` on the header bytes (Python's `int` of `bytes` strips ASCII blanks). */
  function HeaderLength(digits: Bytes): Option<int>
  {
    ParseInt(Latin1(digits), IsAsciiSpace)
  }

  /**
   * One frame read from `input`: the header, then exactly `itotal` payload
   * bytes (none when the length is not positive); the rest stays unread.
   */
  function ReadFrameSpec(input: Bytes): (r: Read)
    ensures r.used <= |input|
    ensures r.frame.Frame? ==> r.used >= 1
  {
    var sc := ScanHeader(input);
    match sc.header
    case PeerClosed => Read(Closed, sc.used)
    case TooLong => Read(Oversized, sc.used)
    case Found(digits) =>
      match HeaderLength(digits)
      case None => Read(BadLength, sc.used)
      case Some(n) =>
        var rest := input[sc.used..];
        if n <= 0 then Read(Frame([]), sc.used)
        else if |rest| < n then Read(Closed, |input|)
        else Read(Frame(rest[..n]), sc.used + n)
  }

  lemma Pow10Eight()
    ensures Pow10(8) == 100_000_000
  {
    assert Pow10(2) == 100;
    assert Pow10(4) == 10_000;
    assert Pow10(6) == 1_000_000;
  }

  /**
   * Encoding lays out the decimal length, ':' and the payload unchanged, and
   * the header reader accepts that header whenever it has at most eight digits.
   */
  lemma {:induction false} EncodeLayout(payload: Bytes)
    requires |payload| < 100_000_000
    ensures var d := DecimalBytes(|payload|);
      && 1 <= |d| <= 8
      && Encode(payload) == d + [COLON] + payload
      && HeaderLength(d) == Some(|payload|)
  {
    var n := |payload|;
    Pow10Eight();
    DecimalLength(n, 8);
    BothConventionsKeepNumerals();
    FormatIntRoundTrip(n, IsAsciiSpace);
  }

  /** A header of at most eight colon-free bytes followed by ':' is found. */
  lemma ScanFound(input: Bytes, d: Bytes)
    requires |d| <= 8 && COLON !in d && |input| > |d| && input[..|d|] == d && input[|d|] == COLON
    ensures ScanHeader(input) == Scan(Found(d), |d| + 1)
  {
    var w := input[..Min(10, |input|)];
    assert w[|d|] == COLON;
    assert forall j :: 0 <= j < |d| ==> w[j] == d[j];
    assert FirstColon(w) == |d|;
  }

  /** Fewer than ten bytes and no ':' among them: the peer closed before the header ended. */
  lemma ScanClosed(input: Bytes)
    requires |input| < 10 && COLON !in input
    ensures ScanHeader(input) == Scan(PeerClosed, |input|)
  {
    assert input[..Min(10, |input|)] == input;
  }

  /** Ten bytes or more with no ':' among the first nine: the header is refused as too long. */
  lemma ScanTooLong(input: Bytes)
    requires |input| >= 10 && COLON !in input[..9]
    ensures ScanHeader(input) == Scan(TooLong, 10)
  {
    var w := input[..10];
    assert forall j :: 0 <= j < 9 ==> w[j] == input[..9][j];
  }

  /** After a found header of length `n >= 0`, a complete payload is read and the rest left unread. */
  lemma ReadFound(input: Bytes, d: Bytes, n: nat)
    requires ScanHeader(input) == Scan(Found(d), |d| + 1) && HeaderLength(d) == Some(n)
    requires |input| >= |d| + 1 + n
    ensures ReadFrameSpec(input) == Read(Frame(input[|d| + 1..|d| + 1 + n]), |d| + 1 + n)
  {
    var rest := input[|d| + 1..];
    if n == 0 {
      assert input[|d| + 1..|d| + 1 + n] == [];
    } else {
      assert rest[..n] == input[|d| + 1..|d| + 1 + n];
    }
  }

  /** The header of an encoded frame is found, and its digits read back as the payload length. */
  lemma EncodedHeader(payload: Bytes, rest: Bytes)
    requires |payload| < 100_000_000
    ensures var d := DecimalBytes(|payload|);
      ScanHeader(d + [COLON] + (payload + rest)) == Scan(Found(d), |d| + 1) && HeaderLength(d) == Some(|payload|)
  {
    EncodeLayout(payload);
    EncodedScan(DecimalBytes(|payload|), payload + rest);
  }

  lemma EncodedScan(d: Bytes, rest: Bytes)
    requires |d| <= 8 && forall i :: 0 <= i < |d| ==> 48 <= d[i] <= 57
    ensures ScanHeader(d + [COLON] + rest) == Scan(Found(d), |d| + 1)
  {
    var input := d + [COLON] + rest;
    assert input[..|d|] == d;
    ScanFound(input, d);
  }

  /**
   * Round trip: a frame written by `Encode` is read back as the same payload,
   * consuming exactly the frame and leaving whatever follows unread.
   */
  lemma {:induction false} FrameRoundTrip(payload: Bytes, rest: Bytes)
    requires |payload| < 100_000_000
    ensures ReadFrameSpec(Encode(payload) + rest) == Read(Frame(payload), |Encode(payload)|)
  {
    var d := DecimalBytes(|payload|);
    EncodedHeader(payload, rest);
    EncodedPayload(d, payload, rest);
    ReadFound(d + [COLON] + (payload + rest), d, |payload|);
  }

  lemma EncodedPayload(d: Bytes, payload: Bytes, rest: Bytes)
    ensures d + [COLON] + payload + rest == d + [COLON] + (payload + rest)
    ensures (d + [COLON] + (payload + rest))[|d| + 1..|d| + 1 + |payload|] == payload
  {
    var input := d + [COLON] + (payload + rest);
    assert input[|d| + 1..] == payload + rest;
  }

  /** What line 183 does under Python 3, where `cnt != ":"` always holds and `cnt == ""` never does. */
  datatype HeaderAsWritten =
    | Refused  // ten bytes read, then `len(total) > 9`
    | Spins    // the peer closed: `recv(1)` returns b"" forever and `total` never grows

  /** The server's header loop as written: it can only stop on the length bound. */
  function ScanHeaderAsWritten(input: Bytes, total: Bytes): HeaderAsWritten
    requires |total| <= 10
    decreases 10 - |total|
  {
    if |total| >= 10 then Refused
    else if input == [] then Spins
    else ScanHeaderAsWritten(input[1..], total + [input[0]])
  }

  /** As written, the server's header loop refuses or spins on every input, however well formed. */
  lemma {:induction false} HeaderAsWrittenNeverAccepts(input: Bytes, total: Bytes)
    requires |total| <= 10
    ensures ScanHeaderAsWritten(input, total) == if |input| + |total| >= 10 then Refused else Spins
    decreases 10 - |total|
  {
    if |total| < 10 && input != [] {
      HeaderAsWrittenNeverAccepts(input[1..], total + [input[0]]);
    }
  }

  /** The request `b"1:c"` that `getConsumer` sends is read as a frame by the evident byte semantics, and refused as written. */
  lemma PullRequestDiscrepancy()
    ensures ReadFrameSpec(Encode([LOWER_C])) == Read(Frame([LOWER_C]), 3)
    ensures ScanHeaderAsWritten(Encode([LOWER_C]), []) == Spins
  {
    FrameRoundTrip([LOWER_C], []);
    assert Encode([LOWER_C]) + [] == Encode([LOWER_C]);
    HeaderAsWrittenNeverAccepts(Encode([LOWER_C]), []);
  }

  // ---------------------------------------------------------------------------
  // Dispatch against the two queues
  // ---------------------------------------------------------------------------

  datatype Queues = Queues(consumer: seq<Bytes>, producer: seq<Bytes>)

  datatype Request = PullConsumer | PullProducer | Push | NoCommand

  /** `bytes.lower()` on one byte. */
  function LowerByte(b: byte): byte
  {
    if 65 <= b <= 90 then b + 32 else b
  }

  /**
   * The command of a request payload: its first byte, lower-cased.  An empty
   * payload has no first byte; indexing it raises IndexError.
   */
  function Classify(payload: Bytes): Request
  {
    if payload == [] then NoCommand
    else if LowerByte(payload[0]) == LOWER_C then PullConsumer
    else if LowerByte(payload[0]) == LOWER_P then PullProducer
    else Push
  }

  /** The new queues and the reply payload (if any) of one request. */
  datatype Outcome = Outcome(queues: Queues, reply: Option<Bytes>)

  /**
   * The per-request dispatch of lines 226-264: `c` pops the consumer queue,
   * `p` pops the producer queue, replying with the popped item or with the
   * compressed-`[]` sentinel when the queue is empty; anything else is pushed
   * whole onto the producer queue with no reply.
   */
  function Dispatch(q: Queues, payload: Bytes, sentinel: Bytes): Outcome
    requires payload != []
  {
    match Classify(payload)
    case PullConsumer =>
      if |q.consumer| > 0 then Outcome(q.(consumer := q.consumer[1..]), Some(q.consumer[0]))
      else Outcome(q, Some(sentinel))
    case PullProducer =>
      if |q.producer| > 0 then Outcome(q.(producer := q.producer[1..]), Some(q.producer[0]))
      else Outcome(q, Some(sentinel))
    case _ =>
      Outcome(q.(producer := q.producer + [payload]), None)
  }

  /**
   * Each request touches one queue only: a pull splits its queue into the
   * reply and the rest (or replies with the sentinel, leaving the empty queue
   * empty), a push appends the whole payload to the producer queue.
   */
  lemma DispatchCases(q: Queues, payload: Bytes, sentinel: Bytes)
    requires payload != []
    ensures var o := Dispatch(q, payload, sentinel);
      && (o.reply.None? <==> Classify(payload) == Push)
      && (Classify(payload) == PullConsumer ==>
        && o.queues.producer == q.producer
        && (q.consumer == [] ==> o.reply == Some(sentinel) && o.queues.consumer == [])
        && (q.consumer != [] ==> q.consumer == [o.reply.value] + o.queues.consumer))
      && (Classify(payload) == PullProducer ==>
        && o.queues.consumer == q.consumer
        && (q.producer == [] ==> o.reply == Some(sentinel) && o.queues.producer == [])
        && (q.producer != [] ==> q.producer == [o.reply.value] + o.queues.producer))
      && (Classify(payload) == Push ==>
        o.queues.consumer == q.consumer && o.queues.producer == q.producer + [payload])
  {
    var o := Dispatch(q, payload, sentinel);
    if Classify(payload) == PullConsumer && q.consumer != [] {
      assert q.consumer == [q.consumer[0]] + q.consumer[1..];
    }
    if Classify(payload) == PullProducer && q.producer != [] {
      assert q.producer == [q.producer[0]] + q.producer[1..];
    }
  }

  /** The queues and replies after a sequence of requests handled in order. */
  datatype Run = Run(queues: Queues, replies: seq<Option<Bytes>>)

  function RunAll(q: Queues, payloads: seq<Bytes>, sentinel: Bytes): Run
    requires forall i :: 0 <= i < |payloads| ==> payloads[i] != []
    decreases |payloads|
  {
    if payloads == [] then Run(q, [])
    else
      var o := Dispatch(q, payloads[0], sentinel);
      var r := RunAll(o.queues, payloads[1..], sentinel);
      Run(r.queues, [o.reply] + r.replies)
  }

  /** Pushed payloads join the tail of the producer queue in order, with no replies. */
  lemma {:induction false} PushesAppend(q: Queues, items: seq<Bytes>, sentinel: Bytes)
    requires forall i :: 0 <= i < |items| ==> items[i] != [] && Classify(items[i]) == Push
    ensures RunAll(q, items, sentinel).queues == Queues(q.consumer, q.producer + items)
    ensures RunAll(q, items, sentinel).replies == seq(|items|, _ => None)
    decreases |items|
  {
    if items != [] {
      var o := Dispatch(q, items[0], sentinel);
      PushesAppend(o.queues, items[1..], sentinel);
      assert q.producer + [items[0]] + items[1..] == q.producer + items;
    }
  }

  /** `n` pull requests on the producer queue return its first `n` items, oldest first. */
  lemma {:induction false} PullsDrainInOrder(q: Queues, n: nat, sentinel: Bytes)
    requires n <= |q.producer|
    ensures RunAll(q, seq(n, _ => [LOWER_P]), sentinel).replies == seq(n, i requires 0 <= i < n => Some(q.producer[i]))
    ensures RunAll(q, seq(n, _ => [LOWER_P]), sentinel).queues == Queues(q.consumer, q.producer[n..])
    decreases n
  {
    var pulls := seq(n, _ => [LOWER_P]);
    if n > 0 {
      var o := Dispatch(q, pulls[0], sentinel);
      assert pulls[1..] == seq(n - 1, _ => [LOWER_P]);
      PullsDrainInOrder(o.queues, n - 1, sentinel);
      assert o.queues.producer[n - 1..] == q.producer[n..];
    }
  }

  // ---------------------------------------------------------------------------
  // Sockets
  // ---------------------------------------------------------------------------

  /**
   * One end of a TCP connection.  `inbox` holds what the peer sends (`recv`
   * returns b"" once it is exhausted); `sendOk` scripts the outcome of the
   * successive `sendall` calls on a connected socket (past its end, sends
   * succeed); `outbox` is what the peer received; `sends` counts `sendall`
   * calls.  A closed socket cannot be reconnected and every send on it fails.
   */
  class Socket {
    var inbox: Bytes
    var outbox: Bytes
    var sendOk: seq<bool>
    var connected: bool
    var closed: bool
    var sends: nat

    constructor (peer: Bytes, outcomes: seq<bool>)
      ensures inbox == peer && sendOk == outcomes && outbox == [] && sends == 0
      ensures !connected && !closed
    {
      inbox, outbox, sendOk := peer, [], outcomes;
      connected, closed, sends := false, false, 0;
    }

    /** `connect`: succeeds only on a fresh socket; a failure closes it (as `startClient` does). */
    method Connect(ok: bool)
      modifies this`connected, this`closed
      ensures connected == (ok && !old(connected) && !old(closed))
      ensures closed == (old(closed) || !connected)
    {
      if ok && !connected && !closed {
        connected := true;
      } else {
        connected, closed := false, true;
      }
    }

    /** `recv(n)`: at most `n` of the waiting bytes, at least one unless the peer has closed. */
    method Recv(n: nat) returns (data: Bytes)
      requires connected && n >= 1
      modifies this`inbox
      ensures old(inbox) == data + inbox
      ensures |data| <= n && (data == [] <==> old(inbox) == [])
    {
      if inbox == [] {
        data := [];
      } else {
        var k :| 1 <= k <= n && k <= |inbox|;
        data, inbox := inbox[..k], inbox[k..];
      }
    }

    /** `sendall(data)`: all of `data` is delivered, or the call raises and nothing is. */
    method SendAll(data: Bytes) returns (ok: bool)
      modifies this`outbox, this`sendOk, this`sends
      ensures sends == old(sends) + 1
      ensures ok == (connected && (old(sendOk) == [] || old(sendOk)[0]))
      ensures outbox == old(outbox) + (if ok then data else [])
      ensures sendOk == if connected && old(sendOk) != [] then old(sendOk)[1..] else old(sendOk)
    {
      sends := sends + 1;
      ok := connected && (sendOk == [] || sendOk[0]);
      if connected && sendOk != [] {
        sendOk := sendOk[1..];
      }
      if ok {
        outbox := outbox + data;
      }
    }

    /** `shutdown(SHUT_RDWR)` then `close()`, every failure swallowed. */
    method Close()
      modifies this`connected, this`closed
      ensures !connected && closed
    {
      connected, closed := false, true;
    }

    /**
     * A fresh socket connected to the same peer, standing in for this one.
     * The source never does this; it is only used by the corrected
     * `sendToProducer`, and the redial is taken to succeed.
     */
    method Reopen()
      modifies this`connected, this`closed
      ensures connected && !closed
    {
      connected, closed := true, false;
    }
  }

  /** The header loop: reads one byte at a time, at most ten. */
  method ReadHeader(sock: Socket) returns (h: HeaderScan)
    requires sock.connected
    modifies sock`inbox
    ensures var sc := ScanHeader(old(sock.inbox)); h == sc.header && sock.inbox == old(sock.inbox)[sc.used..]
  {
    ghost var input := sock.inbox;
    var cnt: Bytes := [];
    var total: Bytes := [];
    var closed := false;
    while !closed && cnt != [COLON] && |total| < 10
      invariant |total| <= 10 && |total| <= |input| && total == input[..|total|] && sock.inbox == input[|total|..]
      invariant total == [] || COLON !in total[..|total| - 1]
      invariant closed ==> input == total && COLON !in total && |total| < 10
      invariant !closed ==> (cnt == []) == (total == []) && (total != [] ==> cnt == [total[|total| - 1]])
      decreases 10 - |total|, !closed
    {
      cnt := sock.Recv(1);
      if cnt == [] {
        assert total == [] || total == total[..|total| - 1] + [total[|total| - 1]];
        closed := true;
      } else {
        ghost var prev := total;
        total := total + cnt;
        assert total[..|total| - 1] == prev;
      }
    }
    if closed {
      ScanClosed(input);
      h := PeerClosed;
    } else if |total| > 9 {
      assert input[..9] == total[..9];
      ScanTooLong(input);
      h := TooLong;
    } else {
      assert input[|total| - 1] == COLON;
      ScanFound(input, total[..|total| - 1]);
      h := Found(total[..|total| - 1]);
    }
  }

  /** The payload loop: `recv(itotal - len(sockData))` until `itotal` bytes have arrived. */
  method ReadPayload(sock: Socket, itotal: int) returns (data: Option<Bytes>)
    requires sock.connected
    modifies sock`inbox
    ensures itotal <= |old(sock.inbox)| ==>
      data == Some(old(sock.inbox)[..Max(itotal, 0)]) && sock.inbox == old(sock.inbox)[Max(itotal, 0)..]
    ensures itotal > |old(sock.inbox)| ==> data == None && sock.inbox == []
  {
    ghost var input := sock.inbox;
    var sockData: Bytes := [];
    while |sockData| < itotal
      invariant |sockData| <= |input| && sockData == input[..|sockData|] && sock.inbox == input[|sockData|..]
      invariant |sockData| <= Max(itotal, 0)
      decreases itotal - |sockData|
    {
      var inData := sock.Recv(itotal - |sockData|);
      if inData == [] {
        return None;
      }
      sockData := sockData + inData;
    }
    data := Some(sockData);
  }

  /** Reads one frame: the header, its length, then the payload. */
  method ReadFrame(sock: Socket) returns (r: FrameRead)
    requires sock.connected
    modifies sock`inbox
    ensures var rd := ReadFrameSpec(old(sock.inbox)); r == rd.frame && sock.inbox == old(sock.inbox)[rd.used..]
  {
    ghost var input := sock.inbox;
    ghost var sc := ScanHeader(input);
    var h := ReadHeader(sock);
    match h {
      case PeerClosed => r := Closed;
      case TooLong => r := Oversized;
      case Found(digits) =>
        var n := HeaderLength(digits);
        if n.None? {
          r := BadLength;
        } else {
          ghost var rest := input[sc.used..];
          var data := ReadPayload(sock, n.value);
          r := if data.Some? then Frame(data.value) else Closed;
          assert ReadFrameSpec(input) == if n.value <= 0 then Read(Frame([]), sc.used)
            else if |rest| < n.value then Read(Closed, |input|)
            else Read(Frame(rest[..n.value]), sc.used + n.value);
        }
    }
  }

  // ---------------------------------------------------------------------------
  // The hub: queues, session workers and the worker registry
  // ---------------------------------------------------------------------------

  function Tail<T>(s: seq<T>): seq<T> { if s == [] then [] else s[1..] }

  /** What a session leaves behind: the queues, the replies sent, the unread input and the unused send outcomes. */
  datatype Session = Session(queues: Queues, output: Bytes, input: Bytes, sendOk: seq<bool>)

  /** One pass of the session loop: new queues, the reply bytes sent, what is left, and whether the loop goes on. */
  datatype Step = Step(queues: Queues, sent: Bytes, input: Bytes, sendOk: seq<bool>, more: bool)

  /**
   * One pass of the `serverThread` loop (lines 183-264): read a frame, answer
   * it, and go on unless the frame could not be read, its payload was empty
   * or the reply could not be sent.
   */
  function Advance(q: Queues, input: Bytes, sendOk: seq<bool>, sentinel: Bytes): (a: Step)
    ensures a.more ==> |a.input| < |input|
    ensures !a.more ==> a.sent == []
  {
    var rd := ReadFrameSpec(input);
    var rest := input[rd.used..];
    if !rd.frame.Frame? || rd.frame.payload == [] then Step(q, [], rest, sendOk, false)
    else
      var o := Dispatch(q, rd.frame.payload, sentinel);
      if o.reply.None? then Step(o.queues, [], rest, sendOk, true)
      else if FirstSendSucceeds(true, sendOk) then Step(o.queues, Encode(o.reply.value), rest, Tail(sendOk), true)
      else Step(o.queues, [], rest, sendOk[1..], false)
  }

  /** A whole session of `serverThread`: passes of the loop until shutdown or until a pass ends it. */
  function Serve(q: Queues, input: Bytes, sendOk: seq<bool>, sentinel: Bytes, shutdown: bool): Session
    decreases |input|
  {
    if shutdown then Session(q, [], input, sendOk)
    else
      var a := Advance(q, input, sendOk, sentinel);
      if a.more then
        var s := Serve(a.queues, a.input, a.sendOk, sentinel, shutdown);
        s.(output := a.sent + s.output)
      else Session(a.queues, a.sent, a.input, a.sendOk)
  }

  /** Two sessions that end alike, the second after `later` bytes of output where the first had sent `earlier`. */
  ghost predicate SameEnd(s0: Session, s: Session, earlier: Bytes, later: Bytes)
  {
    s0.(output := earlier + s0.output) == s.(output := later + s.output)
  }

  /** A pass of the loop carries a session's end over to the session that remains. */
  lemma ServeAdvances(s0: Session, q: Queues, input: Bytes, sendOk: seq<bool>, sentinel: Bytes, earlier: Bytes, later: Bytes)
    requires SameEnd(s0, Serve(q, input, sendOk, sentinel, false), earlier, later)
    ensures var a := Advance(q, input, sendOk, sentinel);
      SameEnd(s0, if a.more then Serve(a.queues, a.input, a.sendOk, sentinel, false) else Session(a.queues, [], a.input, a.sendOk),
        earlier, later + a.sent)
  {
    var a := Advance(q, input, sendOk, sentinel);
    var s := if a.more then Serve(a.queues, a.input, a.sendOk, sentinel, false) else Session(a.queues, [], a.input, a.sendOk);
    AppendAssoc(later, a.sent, s.output);
  }

  lemma AppendAssoc(a: Bytes, b: Bytes, c: Bytes)
    ensures a + (b + c) == (a + b) + c
  {
  }

  /** The workers of `ws` that are still alive, in their registration order. */
  function Live(ws: seq<Worker>, alive: Worker -> bool): seq<Worker>
  {
    if ws == [] then [] else (if alive(ws[0]) then [ws[0]] else []) + Live(ws[1..], alive)
  }

  /** The registry after one reap pass per liveness snapshot. */
  function Reaped(ws: seq<Worker>, rounds: seq<Worker -> bool>): seq<Worker>
    decreases |rounds|
  {
    if rounds == [] then ws else Reaped(Live(ws, rounds[0]), rounds[1..])
  }

  /** A reap pass keeps exactly the registered workers that are alive. */
  lemma {:induction false} LiveMembers(ws: seq<Worker>, alive: Worker -> bool, w: Worker)
    ensures w in Live(ws, alive) <==> w in ws && alive(w)
  {
    if ws != [] {
      LiveMembers(ws[1..], alive, w);
      assert ws == [ws[0]] + ws[1..];
    }
  }

  /** Reaping preserves relative order: it distributes over concatenation. */
  lemma {:induction false} LiveAppend(a: seq<Worker>, b: seq<Worker>, alive: Worker -> bool)
    ensures Live(a + b, alive) == Live(a, alive) + Live(b, alive)
  {
    if a == [] {
      assert a + b == b;
    } else {
      assert (a + b)[0] == a[0];
      assert (a + b)[1..] == a[1..] + b;
      LiveAppend(a[1..], b, alive);
      var h := if alive(a[0]) then [a[0]] else [];
      assert Live(a + b, alive) == h + Live(a[1..] + b, alive);
      assert Live(a, alive) == h + Live(a[1..], alive);
    }
  }

  /** A second pass with the same liveness changes nothing. */
  lemma {:induction false} LiveIdempotent(ws: seq<Worker>, alive: Worker -> bool)
    ensures Live(Live(ws, alive), alive) == Live(ws, alive)
  {
    if ws != [] {
      LiveIdempotent(ws[1..], alive);
      var t := Live(ws[1..], alive);
      if alive(ws[0]) {
        assert Live(ws, alive) == [ws[0]] + t;
        assert ([ws[0]] + t)[0] == ws[0];
        assert ([ws[0]] + t)[1..] == t;
      } else {
        assert Live(ws, alive) == [] + t;
        assert [] + t == t;
      }
    }
  }

  /** The process-wide state of tcpQueue.py: the two queues, the worker registry and the shutdown flag. */
  class Hub {
    var consumer: seq<Bytes>
    var producer: seq<Bytes>
    var workers: seq<Worker>
    var shutdown: bool
    /** `zlib.compress(pickle.dumps([]), 1)`, the reply to a pull on an empty queue. */
    const sentinel: Bytes

    constructor (emptyReply: Bytes)
      ensures consumer == [] && producer == [] && workers == [] && !shutdown && sentinel == emptyReply
    {
      consumer, producer, workers, shutdown := [], [], [], false;
      sentinel := emptyReply;
    }

    /** One request of `serverThread` (lines 226-264), mutating the queues in place. */
    method HandleRequest(payload: Bytes) returns (reply: Option<Bytes>)
      requires payload != []
      modifies this`consumer, this`producer
      ensures var o := Dispatch(Queues(old(consumer), old(producer)), payload, sentinel);
        Queues(consumer, producer) == o.queues && reply == o.reply
    {
      var cmd := LowerByte(payload[0]);
      if cmd == LOWER_C {
        if |consumer| > 0 {
          reply := Some(consumer[0]);
          consumer := consumer[1..];
        } else {
          reply := Some(sentinel);
        }
      } else if cmd == LOWER_P {
        if |producer| > 0 {
          reply := Some(producer[0]);
          producer := producer[1..];
        } else {
          reply := Some(sentinel);
        }
      } else {
        producer := producer + [payload];
        reply := None;
      }
    }

    /** One pass of the `serverThread` loop; a pass that ends the session closes the socket. */
    method ServeFrame(sock: Socket) returns (more: bool)
      requires sock.connected
      modifies this`consumer, this`producer, sock
      ensures var a := Advance(Queues(old(consumer), old(producer)), old(sock.inbox), old(sock.sendOk), sentinel);
        && Queues(consumer, producer) == a.queues
        && sock.outbox == old(sock.outbox) + a.sent
        && sock.inbox == a.input
        && sock.sendOk == a.sendOk
        && more == a.more == sock.connected
    {
      var r := ReadFrame(sock);
      if !r.Frame? || r.payload == [] {
        sock.Close();
        return false;
      }
      var reply := HandleRequest(r.payload);
      if reply.None? {
        return true;
      }
      var ok := sock.SendAll(Encode(reply.value));
      if !ok {
        sock.Close();
        return false;
      }
      more := true;
    }

    /** `serverThread`: serves one connection until it ends, then closes the socket. */
    method ServerThread(sock: Socket)
      requires sock.connected
      modifies this`consumer, this`producer, sock
      ensures var s := Serve(Queues(old(consumer), old(producer)), old(sock.inbox), old(sock.sendOk), sentinel, shutdown);
        && Queues(consumer, producer) == s.queues
        && sock.outbox == old(sock.outbox) + s.output
        && sock.inbox == s.input
        && sock.sendOk == s.sendOk
        && !sock.connected
    {
      ghost var s0 := Serve(Queues(consumer, producer), sock.inbox, sock.sendOk, sentinel, shutdown);
      var more := true;
      while more && !shutdown
        invariant more == sock.connected
        invariant more ==> SameEnd(s0, Serve(Queues(consumer, producer), sock.inbox, sock.sendOk, sentinel, shutdown), old(sock.outbox), sock.outbox)
        invariant !more ==> SameEnd(s0, Session(Queues(consumer, producer), [], sock.inbox, sock.sendOk), old(sock.outbox), sock.outbox)
        decreases |sock.inbox|, more
      {
        ServeAdvances(s0, Queues(consumer, producer), sock.inbox, sock.sendOk, sentinel, old(sock.outbox), sock.outbox);
        more := ServeFrame(sock);
      }
      if more {
        sock.Close();
      }
    }

    /** `controllingThread` registers each worker it starts. */
    method RegisterWorker(w: Worker)
      modifies this`workers
      ensures workers == old(workers) + [w]
    {
      workers := workers + [w];
    }

    /** One pass of `manageWorkers`: drain the registry, then re-put the workers still alive. */
    method ReapPass(alive: Worker -> bool)
      modifies this`workers
      ensures workers == Live(old(workers), alive)
    {
      var drained: seq<Worker> := [];
      while |workers| > 0
        invariant drained + workers == old(workers)
      {
        assert drained + workers == (drained + [workers[0]]) + workers[1..];
        drained := drained + [workers[0]];
        workers := workers[1..];
      }
      assert drained == old(workers);
      assert workers == [] == Live(drained[..0], alive);
      for i := 0 to |drained|
        invariant workers == Live(drained[..i], alive)
      {
        LiveAppend(drained[..i], [drained[i]], alive);
        assert drained[..i + 1] == drained[..i] + [drained[i]];
        assert Live([drained[i]], alive) == if alive(drained[i]) then [drained[i]] else [];
        if alive(drained[i]) {
          workers := workers + [drained[i]];
        }
      }
      assert drained[..|drained|] == drained;
    }

    /**
     * `manageWorkers`, one reap pass per liveness snapshot; on shutdown it
     * makes a single pass and returns.
     */
    method ManageWorkers(rounds: seq<Worker -> bool>)
      modifies this`workers
      ensures workers == Reaped(old(workers), if shutdown then rounds[..Min(1, |rounds|)] else rounds)
    {
      var i := 0;
      while i < |rounds|
        invariant 0 <= i <= |rounds|
        invariant !shutdown || i == 0
        invariant Reaped(old(workers), rounds) == Reaped(workers, rounds[i..])
        invariant workers == Reaped(old(workers), rounds[..i])
      {
        if shutdown {
          ReapPass(rounds[i]);
          assert rounds[..1] == [rounds[0]];
          return;
        }
        ReapPass(rounds[i]);
        ReapedStep(old(workers), rounds, i);
        i := i + 1;
      }
      assert rounds[..|rounds|] == rounds;
    }
  }

  lemma {:induction false} ReapedStep(ws: seq<Worker>, rounds: seq<Worker -> bool>, i: nat)
    requires i < |rounds|
    ensures Reaped(ws, rounds[..i + 1]) == Live(Reaped(ws, rounds[..i]), rounds[i])
    ensures Reaped(ws, rounds[i..]) == Reaped(Live(ws, rounds[i]), rounds[i + 1..])
    decreases i
  {
    if i > 0 {
      assert rounds[..i + 1][1..] == rounds[1..][..i];
      assert rounds[..i][1..] == rounds[1..][..i - 1];
      ReapedStep(Live(ws, rounds[0]), rounds[1..], i - 1);
    } else {
      assert rounds[..1][1..] == [];
    }
  }

  // ---------------------------------------------------------------------------
  // The client facade (class myQueue)
  // ---------------------------------------------------------------------------

  /** What `getConsumer`/`getProducer` hand back. */
  datatype Pulled<V> =
    | Value(v: V)          // `pickle.loads(zlib.decompress(payload))`
    | RawBytes(data: Bytes) // unpickling failed: the decompressed bytes
    | EmptyList            // the `[]` returned after an error
    | Raises               // an exception escapes to the caller

  /** `pickle.loads(zlib.decompress(d))`, falling back to `zlib.decompress(d)`; None when that raises too. */
  function Unpack<V>(d: Bytes, decompress: Bytes -> Option<Bytes>, loads: Bytes -> Option<V>): Option<Pulled<V>>
  {
    match decompress(d)
    case None => None
    case Some(x) => Some(match loads(x) case Some(v) => Value(v) case None => RawBytes(x))
  }

  /** The port check of `__init__`. */
  predicate IsValidPort(port: int) { 1 <= port <= 65535 }

  /** The outcome of a pull whose request went out: what the reply frame yields. */
  function PullResult<V>(reply: FrameRead, decompress: Bytes -> Option<Bytes>, loads: Bytes -> Option<V>, raiseOnUnpack: bool): Pulled<V>
  {
    if !reply.Frame? then EmptyList
    else match Unpack(reply.payload, decompress, loads)
      case Some(x) => x
      case None => if raiseOnUnpack then Raises else EmptyList
  }

  /** `b"1:c"` and `b"1:p"` are the frames of the one-byte commands. */
  lemma CommandFrames()
    ensures Encode([LOWER_C]) == [49, COLON, LOWER_C]
    ensures Encode([LOWER_P]) == [49, COLON, LOWER_P]
  {
    assert Decimal(1) == ['1'];
  }

  /** Whether a `sendall` on a socket in this state succeeds. */
  predicate FirstSendSucceeds(connected: bool, sendOk: seq<bool>)
  {
    connected && (sendOk == [] || sendOk[0])
  }

  /** The number of `sendall` attempts `sendToProducer` makes at most. */
  const ATTEMPTS: nat := 4

  /** How a run of `sendall` attempts ends: delivered or not, and how many calls were made. */
  datatype Delivery = Delivery(delivered: bool, sends: nat)

  /**
   * Up to `tries` attempts, each on a connection that is (re)opened first:
   * the first attempt whose scripted outcome is success delivers the frame.
   */
  function Redial(outcomes: seq<bool>, tries: nat): (d: Delivery)
    ensures d.sends <= tries && (d.delivered ==> d.sends >= 1)
  {
    if tries == 0 then Delivery(false, 0)
    else if outcomes == [] || outcomes[0] then Delivery(true, 1)
    else
      var d := Redial(outcomes[1..], tries - 1);
      d.(sends := d.sends + 1)
  }

  /** One attempt of a redialling run: it delivers, or adds one call to the run of the remaining tries. */
  lemma RedialFirst(outcomes: seq<bool>, tries: nat)
    requires tries > 0
    ensures Redial(outcomes, tries) == if Succeeds(outcomes, 0) then Delivery(true, 1) else Shifted(Redial(outcomes[1..], tries - 1), 1)
  {
  }

  /** Attempt `i` of a run succeeds: its scripted outcome is success, or the script has run out. */
  predicate Succeeds(outcomes: seq<bool>, i: nat)
  {
    i >= |outcomes| || outcomes[i]
  }

  /** With redialling, a frame is delivered exactly when one of the first `tries` attempts succeeds. */
  lemma {:induction false} RedialDelivers(outcomes: seq<bool>, tries: nat)
    ensures Redial(outcomes, tries).delivered <==> exists i :: 0 <= i < tries && Succeeds(outcomes, i)
    decreases tries
  {
    if tries == 0 {
    } else if Succeeds(outcomes, 0) {
      assert Redial(outcomes, tries).delivered;
    } else {
      var tail := outcomes[1..];
      RedialDelivers(tail, tries - 1);
      if Redial(outcomes, tries).delivered {
        var i :| 0 <= i < tries - 1 && Succeeds(tail, i);
        assert Succeeds(outcomes, i + 1);
      } else {
        forall i | 0 <= i < tries
          ensures !Succeeds(outcomes, i)
        {
          if i > 0 {
            assert !Succeeds(tail, i - 1);
          }
        }
      }
    }
  }

  /**
   * As written, one failed `sendall` dooms the three retries: the first
   * outcome decides, although a later one would have succeeded on a new
   * connection.
   */
  lemma RetriesAreLost(outcomes: seq<bool>)
    requires outcomes != [] && !outcomes[0]
    requires Succeeds(outcomes, 1) || Succeeds(outcomes, 2) || Succeeds(outcomes, 3)
    ensures !FirstSendSucceeds(true, outcomes) && Redial(outcomes, 4).delivered
  {
    RedialDelivers(outcomes, 4);
  }

  /** A delivery record after `n` earlier failed calls. */
  function Shifted(d: Delivery, n: nat): Delivery
  {
    d.(sends := d.sends + n)
  }

  class MyQueue {
    const host: string
    const port: int
    /** False when `__init__` returned early on an invalid port, leaving no socket attributes. */
    const configured: bool
    var csock: Socket
    const hub: Hub

    /**
     * `__init__`: with an invalid port the object has no socket, and every
     * later call fails the way calls on a closed socket do.
     */
    constructor (host: string, port: int, hub: Hub, peer: Bytes, outcomes: seq<bool>)
      ensures this.host == host && this.port == port && this.hub == hub
      ensures configured == IsValidPort(port)
      ensures fresh(csock) && csock.inbox == peer && csock.sendOk == outcomes && csock.outbox == []
      ensures csock.sends == 0 && !csock.connected && csock.closed == !configured
    {
      this.host, this.port, this.hub := host, port, hub;
      configured := IsValidPort(port);
      var s := new Socket(peer, outcomes);
      if !IsValidPort(port) {
        s.Close();
      }
      csock := s;
    }

    /** `startClient`: connect, or close the socket on failure. */
    method StartClient(connectOk: bool)
      modifies csock
      ensures csock.connected == (connectOk && !old(csock.connected) && !old(csock.closed))
      ensures csock.closed == (old(csock.closed) || !csock.connected)
      ensures csock.inbox == old(csock.inbox) && csock.outbox == old(csock.outbox)
      ensures csock.sendOk == old(csock.sendOk) && csock.sends == old(csock.sends)
    {
      csock.Connect(connectOk);
    }

    /** `close`. */
    method Close()
      modifies csock
      ensures !csock.connected && csock.closed
      ensures csock.inbox == old(csock.inbox) && csock.outbox == old(csock.outbox)
      ensures csock.sendOk == old(csock.sendOk) && csock.sends == old(csock.sends)
    {
      csock.Close();
    }

    /**
     * `getConsumer` (`cmd` = c) and `getProducer` (`cmd` = p).  An error
     * while sending the request or reading the reply closes the socket and
     * yields `[]`.  The two differ only in the final unpacking: inside the
     * `try` of `getConsumer` (so a failure closes and yields `[]`), after it
     * in `getProducer` (so the exception reaches the caller).
     */
    method Pull<V>(cmd: byte, decompress: Bytes -> Option<Bytes>, loads: Bytes -> Option<V>) returns (r: Pulled<V>)
      requires cmd == LOWER_C || cmd == LOWER_P
      modifies csock
      ensures csock.sends == old(csock.sends) + 1
      ensures csock.sendOk == if old(csock.connected) then Tail(old(csock.sendOk)) else old(csock.sendOk)
      ensures !FirstSendSucceeds(old(csock.connected), old(csock.sendOk)) ==>
        && r == EmptyList && !csock.connected
        && csock.outbox == old(csock.outbox) && csock.inbox == old(csock.inbox)
      ensures FirstSendSucceeds(old(csock.connected), old(csock.sendOk)) ==>
        var rd := ReadFrameSpec(old(csock.inbox));
        && r == PullResult(rd.frame, decompress, loads, cmd == LOWER_P)
        && csock.connected == (r != EmptyList)
        && csock.outbox == old(csock.outbox) + Encode([cmd])
        && csock.inbox == old(csock.inbox)[rd.used..]
    {
      ghost var rd := ReadFrameSpec(csock.inbox);
      var ok := csock.SendAll(Encode([cmd]));
      if !ok {
        csock.Close();
        return EmptyList;
      }
      var frame := ReadFrame(csock);
      assert frame == rd.frame;
      if !frame.Frame? {
        csock.Close();
        return EmptyList;
      }
      var data := Unpack(frame.payload, decompress, loads);
      if data.Some? {
        r := data.value;
        assert r.Value? || r.RawBytes?;
      } else if cmd == LOWER_P {
        r := Raises;
      } else {
        csock.Close();
        r := EmptyList;
      }
      assert r == PullResult(frame, decompress, loads, cmd == LOWER_P);
    }

    /**
     * `sendToProducer`: the counter runs from -1 to 3, so at most four
     * `sendall` attempts; the loop stops after the first one that succeeds,
     * and each failed one calls `close()`.  The socket is never reopened,
     * so once an attempt has failed the remaining ones fail too.
     */
    method SendToProducer(data: Bytes)
      modifies csock
      ensures var delivered := FirstSendSucceeds(old(csock.connected), old(csock.sendOk));
        && csock.outbox == old(csock.outbox) + (if delivered then Encode(data) else [])
        && csock.sends == old(csock.sends) + (if delivered then 1 else 4)
        && csock.connected == delivered
        && csock.sendOk == (if old(csock.connected) then Tail(old(csock.sendOk)) else old(csock.sendOk))
      ensures csock.inbox == old(csock.inbox)
    {
      ghost var delivered := FirstSendSucceeds(csock.connected, csock.sendOk);
      ghost var outcomes := if csock.connected then Tail(csock.sendOk) else csock.sendOk;
      var sndcnt := -1;
      while sndcnt < 3
        invariant -1 <= sndcnt <= 3
        invariant csock.inbox == old(csock.inbox)
        invariant sndcnt == -1 ==> (
          && csock.sends == old(csock.sends) && csock.connected == old(csock.connected)
          && csock.outbox == old(csock.outbox) && csock.sendOk == old(csock.sendOk))
        invariant 0 <= sndcnt < 3 ==> (
          && !delivered && !csock.connected && csock.sends == old(csock.sends) + sndcnt + 1
          && csock.outbox == old(csock.outbox) && csock.sendOk == outcomes)
        invariant sndcnt == 3 ==> (
          && csock.outbox == old(csock.outbox) + (if delivered then Encode(data) else [])
          && csock.sends == old(csock.sends) + (if delivered then 1 else 4)
          && csock.connected == delivered && csock.sendOk == outcomes)
      {
        sndcnt := sndcnt + 1;
        var ok := csock.SendAll(Encode(data));
        if ok {
          sndcnt := 3;
        } else {
          csock.Close();
        }
      }
    }

    /**
     * `sendToProducer` as its documentation intends: after a failed attempt
     * the connection is closed and a new one opened before the next of at
     * most four attempts.
     */
    method SendToProducerRedialing(data: Bytes)
      modifies csock
      ensures var d := Redial(old(csock.sendOk), ATTEMPTS);
        && csock.outbox == old(csock.outbox) + (if d.delivered then Encode(data) else [])
        && csock.sends == old(csock.sends) + d.sends
        && csock.sendOk == old(csock.sendOk)[Min(d.sends, |old(csock.sendOk)|)..]
        && csock.connected == d.delivered
      ensures csock.inbox == old(csock.inbox)
    {
      var sock := csock;
      ghost var outcomes := sock.sendOk;
      ghost var run := Redial(outcomes, ATTEMPTS);
      ghost var done := false;
      ghost var calls: nat := 0;
      var frame := Encode(data);
      var sndcnt := -1;
      while sndcnt < 3
        invariant -1 <= sndcnt <= 3 && sock.sends == old(csock.sends) + calls
        invariant sock.inbox == old(csock.inbox)
        invariant !done ==> (
          && sock.outbox == old(csock.outbox)
          && (sndcnt >= 0 ==> !sock.connected)
          && calls <= |outcomes| && sock.sendOk == outcomes[calls..]
          && run == Shifted(Redial(sock.sendOk, ATTEMPTS - 1 - sndcnt), calls))
        invariant done ==> (
          && sndcnt == 3 && run.delivered && sock.connected && calls == run.sends
          && sock.outbox == old(csock.outbox) + frame
          && sock.sendOk == outcomes[Min(calls, |outcomes|)..])
      {
        sndcnt := sndcnt + 1;
        if !sock.connected {
          sock.Reopen();
        }
        RedialFirst(sock.sendOk, ATTEMPTS - sndcnt);
        var ok := sock.SendAll(frame);
        calls := calls + 1;
        if ok {
          sndcnt := 3;
          done := true;
        } else {
          sock.Close();
        }
      }
    }

    /** `sendToConsumer`: the compressed envelope joins the tail of the consumer queue. */
    method SendToConsumer(envelope: Bytes)
      modifies hub`consumer
      ensures hub.consumer == old(hub.consumer) + [envelope]
    {
      hub.consumer := hub.consumer + [envelope];
    }

    /** `clearQueues`: both queues are drained with `get` until empty. */
    method ClearQueues()
      modifies hub`consumer, hub`producer
      ensures hub.consumer == [] && hub.producer == []
    {
      while |hub.consumer| > 0
        decreases |hub.consumer|
      {
        hub.consumer := hub.consumer[1..];
      }
      while |hub.producer| > 0
        invariant hub.consumer == []
        decreases |hub.producer|
      {
        hub.producer := hub.producer[1..];
      }
    }

    method PQSize() returns (size: int)
      ensures size == |hub.producer|
    {
      size := |hub.producer|;
    }

    method CQSize() returns (size: int)
      ensures size == |hub.consumer|
    {
      size := |hub.consumer|;
    }

    /** `isPQEmpty`: True exactly when the producer queue holds nothing. */
    method IsPQEmpty() returns (empty: bool)
      ensures empty <==> hub.producer == []
    {
      var size := PQSize();
      empty := !(size > 0);
    }

    /** `isCQEmpty`: True exactly when the consumer queue holds nothing. */
    method IsCQEmpty() returns (empty: bool)
      ensures empty <==> hub.consumer == []
    {
      var size := CQSize();
      empty := !(size > 0);
    }
  }
}
