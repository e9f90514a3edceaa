/** A buffered writer in front of a sink that may write short or fail. */
module FlushBuffer {
  import opened Bytes
  import opened Collections

  /** The file: an io.Writer that may take less than it is given and may fail; a write that takes nothing of a
      non-empty argument reports an error. `behave` says, call by call, how many bytes are taken at most and whether
      an error is reported. */
  type Behaviour = nat -> (nat, bool)

  /** What the file has been given: how often, how often with an error, and the bytes it took. */
  datatype Taken = Taken(calls: nat, errors: nat, bytes: seq<byte>)

  /** How many bytes of p the next call takes, and whether it reports an error. */
  function Answer(behave: Behaviour, calls: nat, p: seq<byte>): (r: (nat, bool))
    ensures r.0 <= |p| && (r.0 == 0 && p != [] ==> r.1)
  {
    var (limit, fails) := behave(calls);
    var k := if limit < |p| then limit else |p|;
    (k, fails || (k == 0 && p != []))
  }

  function Given(behave: Behaviour, s: Taken, p: seq<byte>): Taken {
    var (k, err) := Answer(behave, s.calls, p);
    Taken(s.calls + 1, s.errors + (if err then 1 else 0), s.bytes + p[..k])
  }

  /** The buffered writer as a value: the file, and the bytes held back from it. */
  datatype Buffer = Buffer(file: Taken, held: seq<byte>)

  /** Writes until nothing is held or the file reports an error. */
  function Flushed(behave: Behaviour, b: Buffer): (r: (Buffer, bool))
    decreases |b.held|
  {
    if b.held == [] then (b, false)
    else
      var (k, err) := Answer(behave, b.file.calls, b.held);
      var next := Buffer(Given(behave, b.file, b.held), b.held[k..]);
      if err then (next, true) else Flushed(behave, next)
  }

  /** A write with room in the buffer: past it when it is empty and p is large; how much of p it takes, and whether
      it fails. */
  function TookSome(behave: Behaviour, size: nat, b: Buffer, p: seq<byte>): (r: (Buffer, nat, bool))
    requires |b.held| < size && p != []
    ensures r.1 <= |p| && (!r.2 ==> r.1 > 0)
  {
    if b.held == [] && |p| >= size then
      var (k, err) := Answer(behave, b.file.calls, p);
      (b.(file := Given(behave, b.file, p)), k, err)
    else
      var k := if |p| < size - |b.held| then |p| else size - |b.held|;
      (b.(held := b.held + p[..k]), k, false)
  }

  /** The whole write: the state after it, how much of p is accepted, and whether it failed. */
  function Wrote(behave: Behaviour, size: nat, b: Buffer, p: seq<byte>): (r: (Buffer, nat, bool))
    requires 0 < size && |b.held| <= size
    ensures r.1 <= |p|
    decreases |p|
  {
    if p == [] then (b, 0, false)
    else
      var (f, failed) := if |b.held| == size then Flushed(behave, b) else (b, false);
      if failed then (f, 0, true)
      else
        FlushedIsEmpty(behave, b);
        var (t, k, err) := TookSome(behave, size, f, p);
        TookSomeFits(behave, size, f, p);
        if err then (t, k, true) else Behind(k, Wrote(behave, size, t, p[k..]))
  }

  /** The result of a write whose first k bytes were taken before. */
  function Behind(k: nat, r: (Buffer, nat, bool)): (Buffer, nat, bool) {
    (r.0, k + r.1, r.2)
  }

  lemma {:induction false} FlushedIsEmpty(behave: Behaviour, b: Buffer)
    ensures !Flushed(behave, b).1 ==> Flushed(behave, b).0.held == []
    decreases |b.held|
  {
    if b.held != [] {
      var (k, err) := Answer(behave, b.file.calls, b.held);
      if !err {
        FlushedIsEmpty(behave, Buffer(Given(behave, b.file, b.held), b.held[k..]));
      }
    }
  }

  lemma TookSomeFits(behave: Behaviour, size: nat, b: Buffer, p: seq<byte>)
    requires |b.held| < size && p != []
    ensures |TookSome(behave, size, b, p).0.held| <= size
  {
  }

  /** After a failed write the next one goes on behind what was taken: where the file takes m bytes of a large chunk
      with an error and works again, the rest of that chunk is missing and the next chunk follows. */
  lemma FailedWriteLeavesGap(size: nat, file: Taken, first: seq<byte>, m: nat, next: seq<byte>)
    requires 0 < size <= |first| && m < |first| && size <= |next|
    ensures var behave := (calls: nat) => if calls == file.calls then (m, true) else (|next|, false);
      var (b, k, failed) := Wrote(behave, size, Buffer(file, []), first);
      && failed && k == m
      && Wrote(behave, size, b, next)
         == (Buffer(Taken(file.calls + 2, file.errors + 1, file.bytes + first[..m] + next), []), |next|, false)
  {
    var behave := (calls: nat) => if calls == file.calls then (m, true) else (|next|, false);
    var b := Buffer(Given(behave, file, first), []);
    assert next[..|next|] == next && next[|next|..] == [];
    assert TookSome(behave, size, b, next) == (b.(file := Given(behave, b.file, next)), |next|, false);
  }

  lemma WroteStep(behave: Behaviour, size: nat, b: Buffer, p: seq<byte>)
    requires 0 < size && |b.held| <= size && p != []
    ensures var (f, failed) := if |b.held| == size then Flushed(behave, b) else (b, false);
      && (failed ==> Wrote(behave, size, b, p) == (f, 0, true))
      && (!failed ==>
           && |f.held| < size
           && (var (t, k, err) := TookSome(behave, size, f, p);
               && |t.held| <= size
               && Wrote(behave, size, b, p) == if err then (t, k, true) else Behind(k, Wrote(behave, size, t, p[k..]))))
  {
    var f := if |b.held| == size then Flushed(behave, b) else (b, false);
    if !f.1 {
      FlushedIsEmpty(behave, b);
      TookSomeFits(behave, size, f.0, p);
    }
    hide Flushed, TookSome;
  }

  class Sink {
    const behave: Behaviour
    var calls: nat
    var errors: nat
    var bytes: seq<byte>

    constructor (behave: Behaviour)
      ensures bytes == [] && errors == 0 && this.behave == behave
    {
      this.behave, calls, errors, bytes := behave, 0, 0, [];
    }

    function View(): Taken
      reads this
    {
      Taken(calls, errors, bytes)
    }

    method Write(p: seq<byte>) returns (n: nat, err: bool)
      modifies this
      ensures (n, err) == Answer(behave, old(calls), p) && View() == Given(behave, old(View()), p)
    {
      var (limit, fails) := behave(calls);
      n := if limit < |p| then limit else |p|;
      err := fails || (n == 0 && p != []);
      calls := calls + 1;
      errors := errors + (if err then 1 else 0);
      bytes := bytes + p[..n];
    }
  }

  class FlushLockedBufferedWriter {
    const w: Sink
    const buf: array<byte>
    var n: nat

    ghost predicate Valid()
      reads this
    {
      0 < buf.Length && n <= buf.Length
    }

    ghost function View(): Buffer
      requires Valid()
      reads this, w, buf
    {
      Buffer(w.View(), buf[..n])
    }

    /** What was accepted so far: the sink's bytes, then the buffered ones. */
    ghost function Accepted(): seq<byte>
      requires Valid()
      reads this, w, buf
    {
      w.bytes + buf[..n]
    }

    constructor (w: Sink, size: int)
      ensures Valid() && this.w == w && n == 0 && fresh(buf)
      ensures buf.Length == if size <= 0 then 4096 else size
    {
      this.w := w;
      buf := new byte[if size <= 0 then 4096 else size](_ => 0);
      n := 0;
    }

    function Buffered(): nat
      reads this
    {
      n
    }

    /** Drops the first k buffered bytes, moving the others down in place. */
    method Shift(k: nat)
      requires Valid() && k <= n
      modifies this`n, buf
      ensures Valid() && n == old(n) - k && buf[..n] == old(buf[k..n])
    {
      var left := n - k;
      ghost var was := buf[..];
      for i := 0 to left
        invariant n == old(n)
        invariant forall j :: 0 <= j < i ==> buf[j] == was[k + j]
        invariant forall j :: i <= j < n ==> buf[j] == was[j]
      {
        buf[i] := buf[k + i];
      }
      n := left;
      assert buf[..n] == was[k..k + n];
    }

    /** One write of the flush loop: what the sink takes leaves the buffer. */
    method FlushOnce() returns (err: bool)
      requires Valid() && n > 0
      modifies this`n, buf, w
      ensures Valid() && Accepted() == old(Accepted())
      ensures old(w.bytes) <= w.bytes
      ensures w.errors == old(w.errors) + (if err then 1 else 0)
      ensures !err ==> n < old(n)
      ensures (View(), err) == (var was := old(View());
                                var (k, failed) := Answer(w.behave, was.file.calls, was.held);
                                (Buffer(Given(w.behave, was.file, was.held), was.held[k..]), failed))
    {
      ghost var before, held := w.bytes, buf[..n];
      var k, failed := w.Write(buf[..n]);
      assert held == held[..k] + held[k..] && buf[k..n] == held[k..];
      Associate(before, held[..k], held[k..]);
      if k > 0 {
        Shift(k);
      }
      err := failed;
      if !failed && k == 0 {
        assert false;
      }
    }

    /** Nothing is lost or reordered, and only a sink error leaves anything buffered. */
    method Flush() returns (err: bool)
      requires Valid()
      modifies this`n, buf, w
      ensures Valid() && Accepted() == old(Accepted())
      ensures old(w.bytes) <= w.bytes
      ensures w.errors == old(w.errors) + (if err then 1 else 0)
      ensures !err ==> n == 0
      ensures (View(), err) == Flushed(w.behave, old(View()))
    {
      hide Answer, Given;
      err := false;
      ghost var end := Flushed(w.behave, View());
      while n > 0
        invariant Flushed(w.behave, View()) == end
        invariant Valid() && Accepted() == old(Accepted())
        invariant old(w.bytes) <= w.bytes && w.errors == old(w.errors)
        decreases n
      {
        err := FlushOnce();
        if err {
          return true;
        }
      }
    }

    /** Copies what fits of p behind the buffered bytes. */
    method Fill(p: seq<byte>) returns (k: nat)
      requires Valid() && n < buf.Length && p != []
      modifies this`n, buf
      ensures Valid() && 0 < k <= |p| && n == old(n) + k
      ensures k == if |p| < buf.Length - old(n) then |p| else buf.Length - old(n)
      ensures buf[..n] == old(buf[..n]) + p[..k]
    {
      k := if |p| < buf.Length - n then |p| else buf.Length - n;
      for i := 0 to k
        invariant n == old(n) && buf[..n + i] == old(buf[..n]) + p[..i]
      {
        buf[n + i] := p[i];
      }
      n := n + k;
    }

    /** One turn of the write loop after the buffer has room: past the buffer when it is empty and p is large. */
    method Take(p: seq<byte>) returns (k: nat, err: bool)
      requires Valid() && n < buf.Length && p != []
      modifies this`n, buf, w
      ensures Valid() && k <= |p| && Accepted() == old(Accepted()) + p[..k]
      ensures old(w.bytes) <= w.bytes
      ensures w.errors == old(w.errors) + (if err then 1 else 0)
      ensures !err ==> k > 0
      ensures old(n) + |p| < buf.Length ==> w.bytes == old(w.bytes) && n == old(n) + |p| && k == |p|
      ensures (View(), k, err) == TookSome(w.behave, buf.Length, old(View()), p)
    {
      if n == 0 && |p| >= buf.Length {
        k, err := w.Write(p);
      } else {
        k := Fill(p);
        err := false;
      }
    }

    /** The first `written` bytes of p are accepted, in order, and all of them unless the sink failed; a write that
        leaves room in the buffer does not touch the sink. */
    method Write(p: seq<byte>) returns (written: nat, err: bool)
      requires Valid()
      modifies this`n, buf, w
      ensures Valid() && written <= |p| && Accepted() == old(Accepted()) + p[..written]
      ensures old(w.bytes) <= w.bytes
      ensures w.errors == old(w.errors) + (if err then 1 else 0)
      ensures !err ==> written == |p|
      ensures old(n) + |p| < buf.Length ==> w.bytes == old(w.bytes)
      ensures (View(), written, err) == Wrote(w.behave, buf.Length, old(View()), p)
    {
      hide Wrote, Flushed, TookSome;
      written := 0;
      err := false;
      ghost var end := Wrote(w.behave, buf.Length, View(), p);
      while written < |p|
        invariant Valid() && written <= |p| && !err && Accepted() == old(Accepted()) + p[..written]
        invariant old(w.bytes) <= w.bytes && w.errors == old(w.errors)
        invariant old(n) + |p| < buf.Length ==> w.bytes == old(w.bytes) && n == old(n) + written
        invariant end == Behind(written, Wrote(w.behave, buf.Length, View(), p[written..]))
        decreases |p| - written
      {
        var k;
        k, err := Turn(p[written..]);
        TakeMore(p, written, k, old(Accepted()));
        written := written + k;
        if err {
          return written, true;
        }
      }
      NothingWritten(w.behave, buf.Length, View());
    }

    /** One turn of the write loop: a full buffer is flushed first. */
    method Turn(p: seq<byte>) returns (k: nat, err: bool)
      requires Valid() && p != []
      modifies this`n, buf, w
      ensures Valid() && k <= |p| && Accepted() == old(Accepted()) + p[..k]
      ensures old(w.bytes) <= w.bytes
      ensures w.errors == old(w.errors) + (if err then 1 else 0)
      ensures !err ==> k > 0
      ensures old(n) + |p| < buf.Length ==> w.bytes == old(w.bytes) && n == old(n) + |p| && k == |p|
      ensures Wrote(w.behave, buf.Length, old(View()), p)
        == if err then (View(), k, true) else Behind(k, Wrote(w.behave, buf.Length, View(), p[k..]))
    {
      hide Wrote, Flushed, TookSome, Answer, Given;
      WroteStep(w.behave, buf.Length, View(), p);
      if n == buf.Length {
        err := Flush();
        if err {
          return 0, true;
        }
      }
      k, err := Take(p);
    }
  }

  /** The first `done` bytes of p and then k of the others. */
  lemma TakeMore(p: seq<byte>, done: nat, k: nat, before: seq<byte>)
    requires done <= |p| && k <= |p| - done
    ensures before + p[..done] + p[done..][..k] == before + p[..done + k] && p[done..][k..] == p[done + k..]
  {
    assert p[..done + k] == p[..done] + p[done..][..k];
  }

  lemma NothingWritten(behave: Behaviour, size: nat, b: Buffer)
    requires 0 < size && |b.held| <= size
    ensures Wrote(behave, size, b, []) == (b, 0, false)
  {
  }
}
