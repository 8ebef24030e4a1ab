/** The remote file of the RPC client: a plain seekable file on top of requests that
    stream content from an offset. */
module RemoteFile {
  import opened CatCommand
  import opened Wrappers

  datatype Whence = SeekStart | SeekCurrent | SeekEnd

  /** `Panicked` is the nil dereference of a response that is not there, which only a
      failed reset leaves behind. */
  datatype Failure = NoFailure | Eof | RequestFailed | Panicked

  const FORWARD_SEEK_LIMIT := 16384

  function Min(a: nat, b: nat): (m: nat)
    ensures m <= a && m <= b && (m == a || m == b)
  {
    if a < b then a else b
  }

  /** What the server's `cat` streams; it refuses negative arguments. */
  function Serve(data: seq<byte>, offset: int, length: Option<int>): Option<seq<byte>> {
    if offset < 0 || (length.Some? && length.value < 0) then None
    else Some(Window(data, offset, if length.Some? then length.value else -1))
  }

  class ApiFile {
    const data: seq<byte>
    var at: int
    var r: Option<seq<byte>>  // the open response: what it has still to deliver

    /** The unread stream is what a plain file at position `at` would deliver. */
    ghost predicate Valid()
      reads this
    {
      r.Some? ==> at >= 0 && r.value == Drop(data, at)
    }

    constructor (data: seq<byte>)
      ensures this.data == data && at == 0 && r == None
    {
      this.data, at, r := data, 0, None;
    }

    method Reset(requestOk: bool) returns (err: Failure)
      modifies this`r
      ensures Valid()
      ensures err == (if r.Some? then NoFailure else RequestFailed)
      ensures err.NoFailure? <==> requestOk && at >= 0
    {
      r := None;
      if !requestOk {
        return RequestFailed;
      }
      var resp := Serve(data, at, None);
      if resp.None? {
        return RequestFailed;
      }
      r := resp;
      return NoFailure;
    }

    /** Reads up to `len` bytes; the stream decides how many, `n` at most, and may
        fail. The bytes are those at the position, which moves past them. It panics
        exactly when there is no open response, and the end of the file is reported
        exactly when there is nothing left to read. */
    method Read(len: nat, n: nat, streamOk: bool) returns (chunk: seq<byte>, err: Failure)
      requires Valid()
      modifies this
      ensures Valid() && (r.Some? <==> old(r).Some?)
      ensures err.Panicked? <==> old(r).None?
      ensures err.Panicked? ==> chunk == [] && at == old(at)
      ensures !err.Panicked? ==> chunk <= Drop(data, old(at)) && at == old(at) + |chunk|
      ensures !err.Panicked? ==> |chunk| == Min(Min(len, n), |Drop(data, old(at))|)
      ensures err.RequestFailed? <==> old(r).Some? && !streamOk
      ensures err.Eof? <==> old(r).Some? && streamOk && len > 0 && chunk == [] && old(at) >= |data|
    {
      if r.None? {
        return [], Panicked;
      }
      var k := Min(Min(len, n), |r.value|);
      chunk := r.value[..k];
      r := Some(r.value[k..]);
      at := at + k;
      err := if !streamOk then RequestFailed
             else if k == 0 && len > 0 && at >= |data| then Eof else NoFailure;
    }

    /** A read at a position of its own, on a fresh request. */
    method ReadAt(len: nat, off: int, requestOk: bool) returns (chunk: seq<byte>, err: Failure)
      ensures !requestOk || off < 0 <==> err.RequestFailed?
      ensures !err.RequestFailed? ==> chunk == Window(data, off, len) && (err.Eof? <==> |chunk| < len)
    {
      if !requestOk {
        return [], RequestFailed;
      }
      var resp := Serve(data, off, Some(len));
      if resp.None? {
        return [], RequestFailed;
      }
      var n := Min(len, |resp.value|);
      chunk := resp.value[..n];
      err := if n < len then Eof else NoFailure;
    }

    function Target(offset: int, whence: Whence): int
      reads this
    {
      match whence
      case SeekStart => offset
      case SeekCurrent => at + offset
      case SeekEnd => |data| + offset
    }

    /** Moves the position. `avail` bounds what the open stream still delivers
        before it breaks. A successful seek leaves the file at the target, like a
        plain file; a failed one leaves it consistent at wherever it stopped. It
        panics exactly on a short forward skip without an open response. */
    method Seek(offset: int, whence: Whence, requestOk: bool, avail: nat) returns (pos: int, err: Failure)
      requires Valid()
      modifies this
      ensures Valid() && pos == at
      ensures err.NoFailure? ==> at == old(Target(offset, whence)) && (r.Some? <==> old(r).Some? || old(at) != at)
      ensures err.Panicked? <==> old(r).None? && old(at) < old(Target(offset, whence)) < old(at) + FORWARD_SEEK_LIMIT
      ensures err.NoFailure? <==>
        var t := old(Target(offset, whence));
        t == old(at) ||
        (if old(at) < t < old(at) + FORWARD_SEEK_LIMIT
         then old(r).Some? && t <= |data| && t <= old(at) + avail
         else t >= 0 && requestOk)
      ensures err.Panicked? ==> at == old(at)
      ensures var t := old(Target(offset, whence));
        if t == old(at) || err.Panicked? then r == old(r)
        else if old(at) < t < old(at) + FORWARD_SEEK_LIMIT then
          && at == old(at) + Min(Min(t - old(at), |Drop(data, old(at))|), avail) && r.Some?
          && (err.Eof? <==> !err.NoFailure? && at >= |data|)
        else at == t && (r.Some? <==> err.NoFailure?) && !err.Eof?
    {
      var target := offset;
      match whence {
        case SeekEnd => target := |data| + offset;
        case SeekCurrent => target := at + offset;
        case SeekStart =>
      }
      if at == target {
        return target, NoFailure;
      }
      if at < target && target - at < FORWARD_SEEK_LIMIT {
        if r.None? {
          return at, Panicked;
        }
        var n := Min(Min(target - at, |r.value|), avail);
        err := if n == target - at then NoFailure else if n == |r.value| then Eof else RequestFailed;
        r := Some(r.value[n..]);
        at := at + n;
        return at, err;
      }
      at := target;
      err := Reset(requestOk);
      return at, err;
    }
  }
}
