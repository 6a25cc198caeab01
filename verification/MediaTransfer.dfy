/** Fetching a cached media object over the socket: the daemon's window handler
    (internal/app/method_media.go) against the client's reassembly loop
    (cmd/wa/cmd_media.go). */
module MediaTransfer {
  import opened Text

  newtype byte = x: int | 0 <= x < 256

  /** Raw bytes per response, and the largest object the daemon caches. */
  const CHUNK := 512 * 1024
  const MAX_INBOUND := 50 * 1024 * 1024

  /** The recorded size and the bytes actually on disk. */
  datatype CachedObject = CachedObject(size: nat, content: seq<byte>)

  datatype Reply = Chunk(size: int, bytes: seq<byte>, eof: bool) | RpcError

  function Min(a: int, b: int): int { if a < b then a else b }

  /** The bytes a read of `want` bytes at `offset` finds. */
  function Window(content: seq<byte>, offset: nat, want: nat): seq<byte> {
    if offset >= |content| then [] else content[offset..Min(offset + want, |content|)]
  }

  /** The requested length clamped to the chunk ceiling and to what remains. */
  function Want(size: nat, offset: nat, length: nat): nat
    requires offset < size
  {
    Min(if length == 0 || length > CHUNK then CHUNK else length, size - offset)
  }

  /** handleMediaFetchBytes; `obj` is None when the store does not know the object. */
  function Serve(obj: Option<CachedObject>, offset: int, length: int): Reply {
    if offset < 0 || length < 0 || obj.None? then RpcError
    else
      var o := obj.value;
      if o.size > MAX_INBOUND then RpcError
      else if offset >= o.size then Chunk(o.size, [], true)
      else
        var bytes := Window(o.content, offset, Want(o.size, offset, length));
        Chunk(o.size, bytes, offset + |bytes| >= o.size)
  }

  /** The right answer to a request for `length` bytes at `offset`: the recorded size and
      the bytes of the file from there on, as many as were asked for, but no more than
      524288 (which zero asks for, too), than the recorded size leaves and than the file
      has; it is the last one if and only if it reaches the recorded size. */
  ghost predicate Served(o: CachedObject, offset: int, length: int, r: Reply)
    requires r.Chunk?
  {
    && r.size == o.size && (r.eof <==> offset + |r.bytes| >= o.size)
    && (offset >= o.size || offset >= |o.content| ==> r.bytes == [])
    && (0 <= offset < o.size && offset < |o.content| ==>
          var end := offset + Min(if length == 0 then 524288 else Min(length, 524288), Min(o.size, |o.content|) - offset);
          offset <= end <= |o.content| && r.bytes == o.content[offset..end])
  }

  lemma ServeMeans(obj: Option<CachedObject>, offset: int, length: int)
    ensures Serve(obj, offset, length) == RpcError <==> offset < 0 || length < 0 || obj.None? || obj.value.size > 52428800
    ensures var r := Serve(obj, offset, length); r.Chunk? ==> Served(obj.value, offset, length, r)
  {}

  /** No response ever carries more than a chunk, or bytes beyond the recorded size. */
  lemma ServeBounded(obj: Option<CachedObject>, offset: int, length: int)
    ensures var r := Serve(obj, offset, length);
      r.Chunk? ==> |r.bytes| <= CHUNK && r.size <= MAX_INBOUND && (r.bytes != [] ==> offset + |r.bytes| <= r.size)
  {}

  /* ----- base64 (section 4 of RFC 4648) ----- */

  function Sextet(n: nat): char
    requires n < 64
  {
    if n < 26 then 'A' + n as char
    else if n < 52 then 'a' + (n - 26) as char
    else if n < 62 then '0' + (n - 52) as char
    else if n == 62 then '+' else '/'
  }

  function Base64(bs: seq<byte>): string {
    if bs == [] then ""
    else
      var a := bs[0] as nat;
      if |bs| == 1 then [Sextet(a / 4), Sextet(a % 4 * 16), '=', '=']
      else
        var b := bs[1] as nat;
        if |bs| == 2 then [Sextet(a / 4), Sextet(a % 4 * 16 + b / 16), Sextet(b % 16 * 4), '=']
        else
          var c := bs[2] as nat;
          [Sextet(a / 4), Sextet(a % 4 * 16 + b / 16), Sextet(b % 16 * 4 + c / 64), Sextet(c % 64)] + Base64(bs[3..])
  }

  lemma {:induction false} Base64Length(bs: seq<byte>)
    ensures |Base64(bs)| == (|bs| + 2) / 3 * 4
  {
    if |bs| >= 3 {
      Base64Length(bs[3..]);
    }
  }

  /** A response's payload fits the socket's frame with room to spare. */
  lemma PayloadFitsFrame(obj: Option<CachedObject>, offset: int, length: int)
    ensures var r := Serve(obj, offset, length); r.Chunk? ==> |Base64(r.bytes)| <= 699052 < 1024 * 1024
  {
    var r := Serve(obj, offset, length);
    if r.Chunk? {
      ServeBounded(obj, offset, length);
      Base64Length(r.bytes);
    }
  }

  /* ----- the client loop ----- */

  /** What a transfer from `offset` on writes, whether it succeeds, and the number of
      calls it makes. */
  datatype Outcome = Outcome(ok: bool, written: seq<byte>, calls: nat)

  datatype Verdict = Refuse | Last(bytes: seq<byte>) | More(bytes: seq<byte>)

  /** What the client makes of one response when it has `offset` bytes already. */
  function Judge(r: Reply, offset: nat): (v: Verdict)
    ensures !v.Refuse? ==> r.Chunk? && v.bytes == r.bytes && offset + |v.bytes| <= MAX_INBOUND
    ensures v.More? ==> v.bytes != []
  {
    if r.RpcError? || r.size > MAX_INBOUND || offset + |r.bytes| > MAX_INBOUND then Refuse
    else if r.eof then Last(r.bytes)
    else if r.bytes == [] then Refuse
    else More(r.bytes)
  }

  /** The loop against responses that may depend on the call and on the offset. */
  function Transfer(serve: (nat, nat) -> Reply, call: nat, offset: nat): (r: Outcome)
    requires offset <= MAX_INBOUND
    ensures offset + |r.written| <= MAX_INBOUND
    ensures 1 <= r.calls <= |r.written| + 1
    decreases MAX_INBOUND - offset
  {
    match Judge(serve(call, offset), offset)
    case Refuse => Outcome(false, [], 1)
    case Last(bytes) => Outcome(true, bytes, 1)
    case More(bytes) =>
      var rest := Transfer(serve, call + 1, offset + |bytes|);
      Outcome(rest.ok, bytes + rest.written, rest.calls + 1)
  }

  /** `rest` is what remains of `whole` after `calls` calls that wrote `out`. */
  ghost predicate Remains(whole: Outcome, out: seq<byte>, calls: nat, rest: Outcome) {
    whole.ok == rest.ok && whole.calls == calls + rest.calls && whole.written == out + rest.written
  }

  lemma RemainsStep(whole: Outcome, serve: (nat, nat) -> Reply, out: seq<byte>, calls: nat, bytes: seq<byte>)
    requires |out| <= MAX_INBOUND && Judge(serve(calls, |out|), |out|) == More(bytes)
    requires Remains(whole, out, calls, Transfer(serve, calls, |out|))
    ensures Remains(whole, out + bytes, calls + 1, Transfer(serve, calls + 1, |out + bytes|))
  {
    Associative(out, bytes, Transfer(serve, calls + 1, |out + bytes|).written);
  }

  lemma RemainsEnd(whole: Outcome, serve: (nat, nat) -> Reply, out: seq<byte>, calls: nat)
    requires |out| <= MAX_INBOUND && Remains(whole, out, calls, Transfer(serve, calls, |out|))
    ensures Judge(serve(calls, |out|), |out|).Refuse? ==> whole == Outcome(false, out, calls + 1)
    ensures Judge(serve(calls, |out|), |out|).Last? ==> whole == Outcome(true, out + Judge(serve(calls, |out|), |out|).bytes, calls + 1)
  {}

  /** fetchMediaSocket: terminates and stays under the cap whatever the daemon says. */
  method FetchMedia(serve: (nat, nat) -> Reply) returns (ok: bool, out: seq<byte>, calls: nat)
    ensures Outcome(ok, out, calls) == Transfer(serve, 0, 0)
    ensures |out| <= MAX_INBOUND && calls <= |out| + 1
  {
    ghost var whole := Transfer(serve, 0, 0);
    out, calls := [], 0;
    while true
      invariant |out| <= MAX_INBOUND && Remains(whole, out, calls, Transfer(serve, calls, |out|))
      decreases MAX_INBOUND - |out|
    {
      var verdict := Judge(serve(calls, |out|), |out|);
      RemainsEnd(whole, serve, out, calls);
      match verdict {
        case Refuse => return false, out, calls + 1;
        case Last(bytes) => return true, out + bytes, calls + 1;
        case More(bytes) =>
          RemainsStep(whole, serve, out, calls, bytes);
          out := out + bytes;
          calls := calls + 1;
      }
    }
  }

  /** A chunk that stays under the cap, when there are `offset` bytes already. */
  predicate Fits(r: Reply, offset: nat) { r.Chunk? && r.size <= 52428800 && offset + |r.bytes| <= 52428800 }

  /** An answer that the client goes on after: a fitting chunk, neither final nor empty,
      which is what it writes between the offsets `from` and `to`. */
  ghost predicate GoesOn(reply: Reply, from: nat, to: nat, start: nat, written: seq<byte>) {
    && Fits(reply, from) && !reply.eof && reply.bytes != []
    && start <= from && to == from + |reply.bytes| && to - start <= |written|
    && written[from - start..to - start] == reply.bytes
  }

  /** The answer that the client stops after: a fitting final chunk, written whole, or the
      transfer fails with what was written before. */
  ghost predicate Stops(reply: Reply, at: nat, start: nat, r: Outcome) {
    && start <= at <= start + |r.written|
    && (r.ok <==> Fits(reply, at) && reply.eof)
    && (if r.ok then r.written[at - start..] == reply.bytes
        else at == start + |r.written| && (!Fits(reply, at) || reply.bytes == []))
  }

  /** `offs` are the offsets the client asks for, one call each. */
  ghost predicate Conversation(serve: (nat, nat) -> Reply, call: nat, start: nat, r: Outcome, offs: seq<nat>) {
    && |offs| == r.calls > 0 && offs[0] == start
    && (forall j: nat | j < |offs| - 1 :: GoesOn(serve(call + j, offs[j]), offs[j], offs[j + 1], start, r.written))
    && Stops(serve(call + |offs| - 1, offs[|offs| - 1]), offs[|offs| - 1], start, r)
  }

  /** What a transfer is, against any answers at all. */
  lemma {:induction false} TransferIs(serve: (nat, nat) -> Reply, call: nat, start: nat) returns (offs: seq<nat>)
    requires start <= MAX_INBOUND
    ensures Conversation(serve, call, start, Transfer(serve, call, start), offs)
    decreases MAX_INBOUND - start
  {
    match Judge(serve(call, start), start)
    case Refuse => offs := [start];
    case Last(bytes) => offs := [start];
    case More(bytes) =>
      var rest := TransferIs(serve, call + 1, start + |bytes|);
      offs := [start] + rest;
      ConversationMore(serve, call, start, bytes, Transfer(serve, call + 1, start + |bytes|), rest);
  }

  lemma GoesOnShifted(reply: Reply, from: nat, to: nat, start: nat, bytes: seq<byte>, written: seq<byte>)
    requires GoesOn(reply, from, to, start + |bytes|, written)
    ensures GoesOn(reply, from, to, start, bytes + written)
  {
    var k := |bytes|;
    assert (bytes + written)[from - start..to - start] == written[from - start - k..to - start - k];
  }

  lemma StopsShifted(reply: Reply, at: nat, start: nat, bytes: seq<byte>, rest: Outcome)
    requires Stops(reply, at, start + |bytes|, rest)
    ensures Stops(reply, at, start, Outcome(rest.ok, bytes + rest.written, rest.calls + 1))
  {
    assert (bytes + rest.written)[at - start..] == rest.written[at - start - |bytes|..];
  }

  lemma ConversationMore(serve: (nat, nat) -> Reply, call: nat, start: nat, bytes: seq<byte>, rest: Outcome, offs: seq<nat>)
    requires Judge(serve(call, start), start) == More(bytes)
    requires Conversation(serve, call + 1, start + |bytes|, rest, offs)
    ensures Conversation(serve, call, start, Outcome(rest.ok, bytes + rest.written, rest.calls + 1), [start] + offs)
  {
    var all, written := [start] + offs, bytes + rest.written;
    assert written[0..|bytes|] == bytes;
    assert GoesOn(serve(call, start), start, start + |bytes|, start, written);
    forall j: nat | j < |all| - 1
      ensures GoesOn(serve(call + j, all[j]), all[j], all[j + 1], start, written)
    {
      if j > 0 {
        assert all[j] == offs[j - 1] && all[j + 1] == offs[j] && call + 1 + (j - 1) == call + j;
        assert GoesOn(serve(call + 1 + (j - 1), offs[j - 1]), offs[j - 1], offs[j - 1 + 1], start + |bytes|, rest.written);
        GoesOnShifted(serve(call + j, all[j]), all[j], all[j + 1], start, bytes, rest.written);
      }
    }
    var n := offs[|offs| - 1];
    assert all[|all| - 1] == n && call + |all| - 1 == call + 1 + |offs| - 1;
    StopsShifted(serve(call + |all| - 1, n), n, start, bytes, rest);
  }

  /** The daemon's answers to the client's requests for one object. */
  function Daemon(o: CachedObject): (nat, nat) -> Reply {
    (call, offset) => Serve(Some(o), offset, CHUNK)
  }

  /** Calls needed for `n` remaining bytes. */
  function Calls(n: nat): nat { if n == 0 then 1 else (n + CHUNK - 1) / CHUNK }

  lemma CallsStep(n: nat)
    requires n > CHUNK
    ensures Calls(n) == 1 + Calls(n - CHUNK)
  {}

  /** The bytes of the object that are both recorded and on disk. */
  function Available(o: CachedObject): nat { Min(|o.content|, o.size) }

  /** Where the next chunk ends. */
  function Next(o: CachedObject, offset: nat): nat { Min(offset + CHUNK, Available(o)) }

  lemma WindowOf(o: CachedObject, offset: nat)
    requires offset < o.size && offset <= |o.content|
    ensures Window(o.content, offset, Want(o.size, offset, CHUNK)) == o.content[offset..Next(o, offset)]
  {}

  lemma JudgeDaemon(o: CachedObject, call: nat, offset: nat)
    requires o.size <= MAX_INBOUND && offset < o.size && offset <= |o.content|
    ensures var next := Next(o, offset);
      Judge(Daemon(o)(call, offset), offset)
      == if next >= o.size then Last(o.content[offset..next]) else if next == offset then Refuse else More(o.content[offset..next])
  {
    WindowOf(o, offset);
    assert |o.content[offset..Next(o, offset)]| == Next(o, offset) - offset;
  }

  /** What the client has got right when it starts at `offset`. */
  ghost predicate Exact(o: CachedObject, offset: nat, r: Outcome)
    requires offset <= Available(o)
  {
    && (r.ok <==> |o.content| >= o.size)
    && (r.ok ==> r.calls == Calls(o.size - offset))
    && r.written == o.content[offset..Available(o)]
  }

  lemma ExactStep(o: CachedObject, offset: nat, next: nat, rest: Outcome)
    requires offset < next < o.size && next <= |o.content| && next == Next(o, offset)
    requires Exact(o, next, rest)
    ensures Exact(o, offset, Outcome(rest.ok, o.content[offset..next] + rest.written, rest.calls + 1))
  {
    assert o.content[offset..next] + o.content[next..Available(o)] == o.content[offset..Available(o)];
    if rest.ok {
      CallsStep(o.size - offset);
    }
  }

  lemma ExactEnd(o: CachedObject, offset: nat)
    requires offset < o.size && offset <= |o.content|
    ensures Next(o, offset) >= o.size ==> Exact(o, offset, Outcome(true, o.content[offset..Next(o, offset)], 1))
    ensures Next(o, offset) == offset ==> Exact(o, offset, Outcome(false, [], 1))
  {}

  lemma {:induction false} HonestTransfer(o: CachedObject, call: nat, offset: nat)
    requires o.size <= MAX_INBOUND && offset < o.size && offset <= |o.content|
    ensures Exact(o, offset, Transfer(Daemon(o), call, offset))
    decreases o.size - offset
  {
    JudgeDaemon(o, call, offset);
    ExactEnd(o, offset);
    var next := Next(o, offset);
    if offset < next < o.size {
      HonestTransfer(o, call + 1, next);
      ExactStep(o, offset, next, Transfer(Daemon(o), call + 1, next));
    }
  }

  /** Fetching a cached object within the inbound cap succeeds exactly when the file
      holds the recorded size; it then writes exactly those bytes, in
      max(1, ceil(size / 524288)) calls. A shorter file is reported, never passed off
      as complete. */
  lemma TransferExact(o: CachedObject)
    requires o.size <= MAX_INBOUND
    ensures var r := Transfer(Daemon(o), 0, 0);
      && (r.ok <==> |o.content| >= o.size)
      && (r.ok ==> r.written == o.content[..o.size] && r.calls == Calls(o.size))
      && r.written <= o.content
  {
    if o.size > 0 {
      HonestTransfer(o, 0, 0);
    }
  }

  /** An object above the cap is refused without writing anything. */
  lemma OversizeRefused(o: CachedObject)
    requires o.size > MAX_INBOUND
    ensures var r := Transfer(Daemon(o), 0, 0); !r.ok && r.written == [] && r.calls == 1
  {}

  /** readMediaAt: fills `buf` from `offset`; a short read at the end is a success. */
  method ReadMediaAt(content: seq<byte>, buf: array<byte>, offset: nat) returns (n: nat)
    modifies buf
    ensures n <= buf.Length && buf[..n] == Window(content, offset, buf.Length)
    ensures buf[n..] == old(buf[n..])
  {
    n := 0;
    while n < buf.Length && offset + n < |content|
      invariant n <= buf.Length && (n > 0 ==> offset + n <= |content|)
      invariant n > 0 ==> buf[..n] == content[offset..offset + n]
      invariant forall i | n <= i < buf.Length :: buf[i] == old(buf[i])
    {
      buf[n] := content[offset + n];
      n := n + 1;
      assert buf[..n] == buf[..n - 1] + [buf[n - 1]];
    }
  }

  /** The handler over a freshly allocated buffer. */
  method HandleMediaFetchBytes(obj: Option<CachedObject>, offset: int, length: int) returns (r: Reply)
    ensures r == Serve(obj, offset, length)
    ensures r == RpcError <==> offset < 0 || length < 0 || obj.None? || obj.value.size > 52428800
    ensures r.Chunk? ==> Served(obj.value, offset, length, r)
  {
    ServeMeans(obj, offset, length);
    if offset < 0 || length < 0 {
      return RpcError;
    }
    if obj.None? {
      return RpcError;
    }
    var size := obj.value.size;
    if size > MAX_INBOUND {
      return RpcError;
    }
    if offset >= size {
      return Chunk(size, [], true);
    }
    var want := length;
    if want == 0 || want > CHUNK {
      want := CHUNK;
    }
    if want > size - offset {
      want := size - offset;
    }
    var chunk := new byte[want];
    var n := ReadMediaAt(obj.value.content, chunk, offset);
    return Chunk(size, chunk[..n], offset + n >= size);
  }
}
