/** Reassembly of one answer from the bytes of a TCP connection: fourteen bytes with the
    length prefix and the header, then the body into a buffer of the announced size. */
module TcpReader {
  import opened Bytes
  import opened Limits

  const PREFIX := 2

  /** Where a reader is. `Broken`: the announced length is too short for a message.
      `Rejected`: the header does not belong to a correct answer. */
  datatype State =
    | Head(head: seq<byte>)
    | Body(size: nat, got: seq<byte>)
    | Complete(msg: seq<byte>)
    | Broken
    | Rejected

  /** Whether a header is one of a correct answer to a known query. */
  type Accepts = seq<byte> -> bool

  /** The bytes the next read asks for; none when the reader is finished. */
  function Requested(s: State): nat {
    match s
    case Head(head) => if |head| < TCP_HEADER then TCP_HEADER - |head| else 0
    case Body(size, got) => if |got| < size then size - |got| else 0
    case _ => 0
  }

  /** One read. */
  function Take(s: State, chunk: seq<byte>, accepts: Accepts): State {
    match s
    case Head(head) =>
      var h := head + chunk;
      if |h| < TCP_HEADER then Head(h)
      else
        var n := Pack2(h[0], h[1]);
        if n < MSG_LOW then Broken
        else if !accepts(h[PREFIX..TCP_HEADER]) then Rejected
        else Body(n, h[PREFIX..TCP_HEADER])
    case Body(size, got) => if |got + chunk| < size then Body(size, got + chunk) else Complete(got + chunk)
    case _ => s
  }

  /** Read after read. */
  function Fold(s: State, chunks: seq<seq<byte>>, accepts: Accepts): State
    decreases |chunks|
  {
    if chunks == [] then s else Fold(Take(s, chunks[0], accepts), chunks[1..], accepts)
  }

  /** A read gives at least one byte and no more than was asked for. */
  ghost predicate Delivers(s: State, chunks: seq<seq<byte>>, accepts: Accepts)
    decreases |chunks|
  {
    chunks != [] ==>
      && 0 < |chunks[0]| <= Requested(s)
      && Delivers(Take(s, chunks[0], accepts), chunks[1..], accepts)
  }

  const START := Head([])

  function Flat(chunks: seq<seq<byte>>): seq<byte> {
    if chunks == [] then [] else chunks[0] + Flat(chunks[1..])
  }

  /** What the bytes of a connection amount to, whatever reads they come in. */
  function StateOf(taken: seq<byte>, accepts: Accepts): State {
    if |taken| < TCP_HEADER then Head(taken)
    else
      var n := Pack2(taken[0], taken[1]);
      if n < MSG_LOW then Broken
      else if !accepts(taken[PREFIX..TCP_HEADER]) then Rejected
      else if |taken| - PREFIX < n then Body(n, taken[PREFIX..])
      else Complete(taken[PREFIX..])
  }

  /** The state of the connection as the program keeps it: `tcp_head_buf` and `tcp_head_len` of
      the server, `answer_buf` and `answer_msg_len` of the query. */
  class Reader {
    const accepts: Accepts
    var headBuf: array<byte>
    var headLen: nat
    var body: array?<byte>
    var bodyLen: nat

    ghost predicate Valid()
      reads this, headBuf, body
    {
      && headBuf.Length == TCP_HEADER && headLen <= TCP_HEADER
      && (if body == null then
            headLen == TCP_HEADER ==> Pack2(headBuf[0], headBuf[1]) < MSG_LOW || !accepts(headBuf[PREFIX..TCP_HEADER])
          else body != headBuf && bodyLen <= body.Length)
    }

    /** What the buffers hold. */
    ghost function View(): State
      requires Valid()
      reads this, headBuf, body
    {
      if body != null then if bodyLen < body.Length then Body(body.Length, body[..bodyLen]) else Complete(body[..])
      else if headLen < TCP_HEADER then Head(headBuf[..headLen])
      else if Pack2(headBuf[0], headBuf[1]) < MSG_LOW then Broken
      else Rejected
    }

    /** A query that starts to wait for a header. */
    constructor (accepts: Accepts)
      ensures Valid() && View() == START && this.accepts == accepts && fresh(headBuf) && body == null
    {
      this.accepts := accepts;
      headBuf := new byte[TCP_HEADER];
      headLen, body, bodyLen := 0, null, 0;
    }

    method Wanted() returns (n: nat)
      requires Valid()
      ensures n == Requested(View())
    {
      n := if body == null then TCP_HEADER - headLen else body.Length - bodyLen;
    }

    method Receive(chunk: seq<byte>)
      requires Valid() && 0 < |chunk| <= Requested(View())
      modifies this, headBuf, body
      ensures Valid() && View() == Take(old(View()), chunk, accepts) && headBuf == old(headBuf)
      ensures body == old(body) || fresh(body)
    {
      if body == null {
        ReceiveHead(chunk);
      } else {
        ReceiveBody(chunk);
      }
    }

    method ReceiveHead(chunk: seq<byte>)
      requires Valid() && body == null && 0 < |chunk| <= Requested(View())
      modifies this, headBuf
      ensures Valid() && View() == Take(old(View()), chunk, accepts) && headBuf == old(headBuf)
      ensures body == null || fresh(body)
    {
      ghost var h := headBuf[..headLen] + chunk;
      forall k | 0 <= k < |chunk| {
        headBuf[headLen + k] := chunk[k];
      }
      headLen := headLen + |chunk|;
      assert headBuf[..headLen] == h;
      if headLen < TCP_HEADER {
        return;
      }
      assert headBuf[0] == h[0] && headBuf[1] == h[1] && headBuf[PREFIX..TCP_HEADER] == h[PREFIX..TCP_HEADER];
      var msgLen := Pack2(headBuf[0], headBuf[1]);
      if msgLen < MSG_LOW || !accepts(headBuf[PREFIX..TCP_HEADER]) {
        return;
      }
      var buf := new byte[msgLen];
      forall k | 0 <= k < MSG_HEADER {
        buf[k] := headBuf[PREFIX + k];
      }
      body, bodyLen := buf, MSG_HEADER;
      assert body[..bodyLen] == h[PREFIX..TCP_HEADER];
    }

    method ReceiveBody(chunk: seq<byte>)
      requires Valid() && body != null && 0 < |chunk| <= Requested(View())
      modifies this, body
      ensures Valid() && View() == Take(old(View()), chunk, accepts) && headBuf == old(headBuf) && body == old(body)
    {
      forall k | 0 <= k < |chunk| {
        body[bodyLen + k] := chunk[k];
      }
      bodyLen := bodyLen + |chunk|;
      assert body[..bodyLen] == old(body[..bodyLen]) + chunk;
      assert bodyLen == body.Length ==> body[..] == body[..bodyLen];
    }
  }

  /** A whole answer, read after read: the buffers end up with what the bytes amount to. */
  method Reassemble(chunks: seq<seq<byte>>, accepts: Accepts) returns (r: Reader)
    requires Delivers(START, chunks, accepts)
    ensures fresh(r) && r.Valid() && r.View() == StateOf(Flat(chunks), accepts)
  {
    r := new Reader(accepts);
    for k := 0 to |chunks|
      invariant fresh(r) && fresh(r.headBuf) && (r.body == null || fresh(r.body)) && r.Valid() && r.accepts == accepts
      invariant Delivers(r.View(), chunks[k..], accepts)
      invariant Fold(r.View(), chunks[k..], accepts) == Fold(START, chunks, accepts)
    {
      assert chunks[k..][1..] == chunks[k + 1..];
      r.Receive(chunks[k]);
    }
    FoldIs([], chunks, accepts);
    assert [] + Flat(chunks) == Flat(chunks);
  }

  /** A read adds its bytes to those taken before. */
  lemma TakeIs(taken: seq<byte>, chunk: seq<byte>, accepts: Accepts)
    requires |chunk| <= Requested(StateOf(taken, accepts))
    ensures Take(StateOf(taken, accepts), chunk, accepts) == StateOf(taken + chunk, accepts)
  {
    hide Pack2;
    var t := taken + chunk;
    if StateOf(taken, accepts).Body? {
      assert t[0] == taken[0] && t[1] == taken[1];
      assert t[PREFIX..TCP_HEADER] == taken[PREFIX..TCP_HEADER];
      assert t[PREFIX..] == taken[PREFIX..] + chunk;
    } else if StateOf(taken, accepts).Head? {
      assert |t| == TCP_HEADER ==> t[PREFIX..] == t[PREFIX..TCP_HEADER];
    } else {
      assert t == taken;
    }
  }

  lemma {:induction false} FoldIs(taken: seq<byte>, chunks: seq<seq<byte>>, accepts: Accepts)
    requires Delivers(StateOf(taken, accepts), chunks, accepts)
    ensures Fold(StateOf(taken, accepts), chunks, accepts) == StateOf(taken + Flat(chunks), accepts)
    decreases |chunks|
  {
    hide StateOf, Take;
    if chunks == [] {
      assert taken + [] == taken;
    } else {
      TakeIs(taken, chunks[0], accepts);
      FoldIs(taken + chunks[0], chunks[1..], accepts);
      assert taken + Flat(chunks) == taken + chunks[0] + Flat(chunks[1..]);
    }
  }

  /** Nothing is taken past the message: what was taken is a prefix and the message. */
  lemma {:induction false} NeverPast(taken: seq<byte>, chunks: seq<seq<byte>>, accepts: Accepts)
    requires Delivers(StateOf(taken, accepts), chunks, accepts)
    requires Bounded(taken, accepts)
    ensures Bounded(taken + Flat(chunks), accepts)
    decreases |chunks|
  {
    if chunks == [] {
      assert taken + [] == taken;
    } else {
      var t := taken + chunks[0];
      assert taken + Flat(chunks) == t + Flat(chunks[1..]);
      TakeIs(taken, chunks[0], accepts);
      BoundedStep(taken, chunks[0], accepts);
      NeverPast(t, chunks[1..], accepts);
    }
  }

  lemma BoundedStep(taken: seq<byte>, chunk: seq<byte>, accepts: Accepts)
    requires Bounded(taken, accepts) && 0 < |chunk| <= Requested(StateOf(taken, accepts))
    ensures Bounded(taken + chunk, accepts)
  {
    TakeIs(taken, chunk, accepts);
    if StateOf(taken, accepts).Body? {
      assert (taken + chunk)[0] == taken[0] && (taken + chunk)[1] == taken[1];
    }
  }

  ghost predicate Bounded(taken: seq<byte>, accepts: Accepts) {
    match StateOf(taken, accepts)
    case Head(_) => true
    case Body(size, got) => |got| < size == Pack2(taken[0], taken[1])
    case Complete(msg) => |msg| == Pack2(taken[0], taken[1])
    case Broken => |taken| == TCP_HEADER
    case Rejected => |taken| == TCP_HEADER
  }

  // ------------------------------------------------------ framed messages

  /** A message behind its length (section 4.2.2 of RFC 1035). */
  ghost function Framed(msg: seq<byte>): seq<byte>
    requires |msg| < 0x1_0000
  {
    Unpack2(|msg|) + msg
  }

  /** A message a reader accepts. */
  ghost predicate Deliverable(msg: seq<byte>, accepts: Accepts) {
    MSG_LOW <= |msg| < 0x1_0000 && accepts(msg[..MSG_HEADER])
  }

  lemma FramedParts(msg: seq<byte>, rest: seq<byte>)
    requires MSG_LOW <= |msg| < 0x1_0000
    ensures var t := Framed(msg) + rest;
            && Pack2(t[0], t[1]) == |msg|
            && t[PREFIX..TCP_HEADER] == msg[..MSG_HEADER]
            && t[..PREFIX + |msg|] == Framed(msg)
  {
    hide Pack2, Unpack2;
    PackUnpack(|msg|, 0, 0, 0, 0, 0);
    var p := Unpack2(|msg|);
    var t := p + msg + rest;
    assert t[0] == p[0] && t[1] == p[1];
    assert t[PREFIX..TCP_HEADER] == msg[..MSG_HEADER];
  }

  lemma FramedState(taken: seq<byte>, msg: seq<byte>, accepts: Accepts)
    requires Deliverable(msg, accepts)
    ensures taken == Framed(msg) ==> StateOf(taken, accepts) == Complete(msg)
    ensures StateOf(taken, accepts) == Complete(msg) && Bounded(taken, accepts) ==> taken == Framed(msg)
  {
    hide Pack2, Unpack2;
    if taken == Framed(msg) {
      FramedParts(msg, []);
      assert taken + [] == taken;
      assert taken[PREFIX..] == msg;
    } else if StateOf(taken, accepts) == Complete(msg) {
      var p := [taken[0], taken[1]];
      PackUnpack(0, 0, p[0], p[1], 0, 0);
      assert taken == p + taken[PREFIX..];
    }
  }

  /** Chunking does not matter: whatever reads the same bytes come in, the reader ends in the
      same state. */
  lemma ChunkingIndependent(a: seq<seq<byte>>, b: seq<seq<byte>>, accepts: Accepts)
    requires Delivers(START, a, accepts) && Delivers(START, b, accepts) && Flat(a) == Flat(b)
    ensures Fold(START, a, accepts) == Fold(START, b, accepts)
  {
    FoldIs([], a, accepts);
    FoldIs([], b, accepts);
    assert [] + Flat(a) == Flat(a) && [] + Flat(b) == Flat(b);
  }

  /** It has a message in its buffer exactly when it took that message behind its length. */
  lemma HoldsExactly(chunks: seq<seq<byte>>, msg: seq<byte>, accepts: Accepts)
    requires Delivers(START, chunks, accepts) && Deliverable(msg, accepts)
    ensures Fold(START, chunks, accepts) == Complete(msg) <==> Flat(chunks) == Framed(msg)
  {
    hide Framed;
    FoldIs([], chunks, accepts);
    NeverPast([], chunks, accepts);
    assert [] + Flat(chunks) == Flat(chunks);
    FramedState(Flat(chunks), msg, accepts);
  }

  /** A stream that starts with a framed message: whatever the chunks, a reader that goes on
      until it asks for nothing more has taken the framed message and left the rest. */
  lemma LeavesTheRest(chunks: seq<seq<byte>>, msg: seq<byte>, rest: seq<byte>, accepts: Accepts)
    requires Deliverable(msg, accepts)
    requires Delivers(START, chunks, accepts) && Flat(chunks) <= Framed(msg) + rest
    requires Requested(Fold(START, chunks, accepts)) == 0
    ensures Flat(chunks) == Framed(msg) && Fold(START, chunks, accepts) == Complete(msg)
  {
    hide Framed, Pack2, Fold;
    var t, stream := Flat(chunks), Framed(msg) + rest;
    FoldIs([], chunks, accepts);
    NeverPast([], chunks, accepts);
    assert [] + t == t;
    FramedParts(msg, rest);
    assert t == stream[..|t|];
    assert t[0] == stream[0] && t[1] == stream[1];
    assert t[PREFIX..TCP_HEADER] == stream[PREFIX..TCP_HEADER];
    FramedState(t, msg, accepts);
  }
}
