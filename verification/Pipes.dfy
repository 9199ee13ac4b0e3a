/** Pipes in memory: a ring of bytes, two queues of waiting processes and the open counts. */
module Pipes {
  import opened Basics
  import opened PipeSpec
  import PidQueue
  import opened Ring

  /** The n bytes from `first` on, round the ring. */
  function Window(ring: seq<Byte>, first: nat, n: nat): (r: seq<Byte>)
    requires |ring| == BUFFER_SIZE
    ensures |r| == n && forall k :: 0 <= k < n ==> r[k] == ring[Ahead(first, k, BUFFER_SIZE)]
  {
    seq(n, k requires 0 <= k < n => ring[Ahead(first, k, BUFFER_SIZE)])
  }

  class Pipe {
    const buffer: array<Byte>
    var readIdx: nat
    var writeIdx: nat
    var count: nat
    var openRead: nat
    var openWrite: nat
    const waitReaders: PidQueue.Queue
    const waitWriters: PidQueue.Queue
    var inUse: bool
    var isNamed: bool
    var eof: bool
    var opens: nat
    var name: string
    ghost const Repr: set<object>

    ghost predicate Valid()
      reads this, Repr
    {
      && {this, buffer, waitReaders, waitReaders.data, waitWriters, waitWriters.data} <= Repr
      && RingOk() && waitReaders.Valid() && waitWriters.Valid()
      && waitReaders != waitWriters && waitReaders.data != waitWriters.data
    }

    ghost predicate RingOk()
      reads `readIdx, `writeIdx, `count
    {
      buffer.Length == BUFFER_SIZE && readIdx < BUFFER_SIZE && count <= BUFFER_SIZE && writeIdx == Ahead(readIdx, count, BUFFER_SIZE)
    }

    /** The bytes in the buffer, oldest first. */
    ghost function Contents(): (q: seq<Byte>)
      reads `readIdx, `writeIdx, `count, buffer
      requires RingOk()
      ensures |q| == count
    {
      Window(buffer[..], readIdx, count)
    }

    ghost function View(): PipeSpec.Pipe
      reads this, Repr
      requires Valid()
    {
      PipeSpec.Pipe(Contents(), openRead, openWrite, waitReaders.Contents(), waitWriters.Contents(),
                    inUse, isNamed, eof, opens, name)
    }

    constructor ()
      ensures Valid() && View() == Unused() && fresh(Repr)
    {
      buffer := new Byte[BUFFER_SIZE](_ => 0);
      readIdx, writeIdx, count, openRead, openWrite, opens := 0, 0, 0, 0, 0, 0;
      var r := new PidQueue.Queue();
      var w := new PidQueue.Queue();
      waitReaders, waitWriters := r, w;
      inUse, isNamed, eof, name := false, false, false, "";
      Repr := {this, buffer, r, r.data, w, w.data};
    }

    method Drain()
      requires Valid()
      modifies `readIdx, `writeIdx, `count
      ensures Valid() && View() == old(View()).(data := [])
    {
      hide PidQueue.Queue.Valid, PidQueue.Queue.Contents;
      readIdx, writeIdx, count := 0, 0, 0;
    }

    method ClearQueues()
      requires Valid()
      modifies waitReaders, waitWriters
      ensures Valid() && View() == old(View()).(readers := [], writers := [])
    {
      hide PidQueue.Queue.Valid, PidQueue.Queue.Contents, Pipe.RingOk, Pipe.Contents;
      waitReaders.Clear();
      waitWriters.Clear();
    }

    /** Back to a blank slot, but for its use. */
    method Reset()
      requires Valid()
      modifies Repr
      ensures Valid() && View() == Unused().(inUse := old(inUse))
    {
      hide PidQueue.Queue.Valid, PidQueue.Queue.Contents, Pipe.RingOk, Pipe.Contents;
      Drain();
      ClearQueues();
      Unname();
      openRead, openWrite := 0, 0;
    }

    method Unname()
      requires Valid()
      modifies `isNamed, `eof, `opens, `name
      ensures Valid() && View() == old(View()).(named := false, eof := false, opens := 0, name := "")
    {
      hide PidQueue.Queue.Valid, PidQueue.Queue.Contents, Pipe.RingOk, Pipe.Contents;
      isNamed, eof, opens, name := false, false, 0, "";
    }

    method MaybeFree()
      requires Valid()
      modifies Repr
      ensures Valid() && View() == PipeSpec.MaybeFree(old(View()))
    {
      if openRead == 0 && openWrite == 0 {
        Reset();
        inUse := false;
      }
    }

    // ---------------------------------------------------------------- waking

    /** Empty the queue of readers, from the front. */
    method WakeAllReaders() returns (woken: seq<nat>)
      requires Valid()
      modifies waitReaders
      ensures Valid() && woken == old(View()).readers && View() == old(View()).(readers := [])
    {
      hide PidQueue.Queue.Valid, PidQueue.Queue.Contents, Pipe.RingOk, Pipe.Contents;
      woken := waitReaders.PopAll();
    }

    method WakeAllWriters() returns (woken: seq<nat>)
      requires Valid()
      modifies waitWriters
      ensures Valid() && woken == old(View()).writers && View() == old(View()).(writers := [])
    {
      hide PidQueue.Queue.Valid, PidQueue.Queue.Contents, Pipe.RingOk, Pipe.Contents;
      woken := waitWriters.PopAll();
    }

    // ---------------------------------------------------------------- opening and closing ends

    method PipeOpenRead() returns (woken: seq<nat>)
      requires Valid()
      modifies Repr
      ensures Valid() && (View(), woken) == PipeSpec.OpenRead(old(View()))
    {
      hide PidQueue.Queue.Valid, PidQueue.Queue.Contents, Pipe.RingOk, Pipe.Contents;
      openRead := openRead + 1;
      woken := [];
      if isNamed && waitWriters.count > 0 && openRead > 0 {
        woken := WakeAllWriters();
      }
    }

    method PipeOpenWrite() returns (woken: seq<nat>)
      requires Valid()
      modifies Repr
      ensures Valid() && (View(), woken) == PipeSpec.OpenWrite(old(View()))
    {
      hide PidQueue.Queue.Valid, PidQueue.Queue.Contents, Pipe.RingOk, Pipe.Contents;
      openWrite := openWrite + 1;
      woken := [];
      if isNamed {
        eof := false;
        if waitReaders.count > 0 {
          woken := WakeAllReaders();
        }
      }
    }

    method PipeCloseRead() returns (woken: seq<nat>)
      requires Valid()
      modifies Repr
      ensures Valid() && (View(), woken) == PipeSpec.CloseRead(old(View()))
    {
      hide PidQueue.Queue.Valid, PidQueue.Queue.Contents, Pipe.RingOk, Pipe.Contents;
      if openRead > 0 {
        openRead := openRead - 1;
      }
      woken := [];
      if openRead == 0 {
        woken := WakeAllWriters();
      }
      MaybeFree();
    }

    method PipeCloseWrite() returns (woken: seq<nat>)
      requires Valid()
      modifies Repr
      ensures Valid() && (View(), woken) == PipeSpec.CloseWrite(old(View()))
    {
      hide PidQueue.Queue.Valid, PidQueue.Queue.Contents, Pipe.RingOk, Pipe.Contents;
      if openWrite > 0 {
        openWrite := openWrite - 1;
      }
      woken := [];
      if openWrite == 0 {
        if isNamed && opens >= 2 {
          eof := true;
        }
        woken := WakeAllReaders();
      }
      MaybeFree();
    }

    // ---------------------------------------------------------------- reading and writing

    /** Take n bytes out of the ring. */
    method CopyOut(n: nat) returns (bytes: seq<Byte>)
      requires Valid() && n <= count
      modifies `readIdx, `count
      ensures Valid() && bytes == old(Contents())[..n] && View() == old(View()).(data := old(Contents())[n..])
    {
      hide Ahead;
      ghost var q := Contents();
      ghost var first := readIdx;
      bytes := [];
      if n == 0 {
        assert q[0..] == q;
      }
      PlaceFirst(first);
      while |bytes| < n
        invariant |bytes| <= n && count == |q| - |bytes| && readIdx == Ahead(first, |bytes|, BUFFER_SIZE) && bytes == q[..|bytes|]
        invariant readIdx < BUFFER_SIZE && Shift(first, |bytes|, count) && writeIdx == Ahead(first, |q|, BUFFER_SIZE)
        invariant Valid()
        decreases n - |bytes|
      {
        ghost var k := |bytes|;
        assert q[k] == buffer[readIdx];
        StepOn(first, k, count);
        bytes := bytes + [buffer[readIdx]];
        readIdx := (readIdx + 1) % BUFFER_SIZE;
        count := count - 1;
        assert Shifted(first, k + 1, count);
        assert q[..k + 1] == q[..k] + [q[k]];
      }
      forall k | 0 <= k < count ensures Contents()[k] == q[n..][k] {
        assert Shifted(first, n, k);
        assert q[n..][k] == q[n + k];
      }
    }

    /** Put the first n of `bytes` into the ring, behind what is there. */
    method CopyIn(bytes: seq<Byte>, n: nat)
      requires Valid() && n <= |bytes| && count + n <= BUFFER_SIZE
      modifies buffer, `writeIdx, `count
      ensures Valid() && View() == old(View()).(data := old(Contents()) + bytes[..n])
    {
      hide Ahead, Window, PidQueue.Queue.Valid, PidQueue.Queue.Contents;
      ghost var q := Contents();
      var i := 0;
      while i < n
        invariant 0 <= i <= n && Valid() && count == |q| + i
        invariant Contents() == q + bytes[..i]
        invariant View() == old(View()).(data := Contents())
      {
        Appended(buffer[..], readIdx, count, bytes[i]);
        buffer[writeIdx] := bytes[i];
        AheadNext(readIdx, count, BUFFER_SIZE);
        writeIdx := (writeIdx + 1) % BUFFER_SIZE;
        count := count + 1;
        i := i + 1;
        assert bytes[..i] == bytes[..i - 1] + [bytes[i - 1]];
      }
    }

    method PipeRead(cur: nat, len: nat) returns (r: ReadResult, woken: seq<nat>)
      requires Valid()
      modifies Repr
      ensures Valid() && (View(), r, woken) == PipeSpec.Read(old(View()), cur, len)
    {
      hide PidQueue.Queue.Valid, PidQueue.Queue.Contents, Pipe.RingOk, Pipe.Contents;
      woken := [];
      if len == 0 {
        return Got([]), [];
      }
      if count == 0 {
        if isNamed {
          if eof {
            return Got([]), [];
          }
        } else if openWrite == 0 {
          return Got([]), [];
        }
        waitReaders.PushNew(cur);
        return ReadBlocks, [];
      }
      var toRead := len;
      if toRead > count {
        toRead := count;
      }
      var bytes := CopyOut(toRead);
      if waitWriters.count > 0 && count < BUFFER_SIZE {
        var pid := waitWriters.Pop();
        woken := [pid];
      }
      return Got(bytes), woken;
    }

    method PipeWrite(cur: nat, bytes: seq<Byte>) returns (r: WriteResult, woken: seq<nat>)
      requires Valid()
      modifies Repr
      ensures Valid() && (View(), r, woken) == PipeSpec.Write(old(View()), cur, bytes)
    {
      hide PidQueue.Queue.Valid, PidQueue.Queue.Contents, Pipe.RingOk, Pipe.Contents;
      woken := [];
      if |bytes| == 0 {
        return Accepted(0), [];
      }
      if openRead == 0 {
        if isNamed {
          if eof {
            return Accepted(0), [];
          }
          waitWriters.PushNew(cur);
          return WriteBlocks, [];
        }
        return Accepted(0), [];
      }
      if count >= BUFFER_SIZE {
        waitWriters.PushNew(cur);
        return WriteBlocks, [];
      }
      var space := BUFFER_SIZE - count;
      var toWrite := if |bytes| < space then |bytes| else space;
      CopyIn(bytes, toWrite);
      if waitReaders.count > 0 && count > 0 {
        var pid := waitReaders.Pop();
        woken := [pid];
      }
      return Accepted(toWrite), woken;
    }

    /** Take a dying process out of both queues, if the slot is in use. */
    method RemoveWaiter(pid: nat)
      requires Valid()
      modifies Repr
      ensures Valid() && View() == Forget(old(View()), pid)
    {
      hide PidQueue.Removed;
      if !inUse {
        return;
      }
      var r := waitReaders.Remove(pid);
      var w := waitWriters.Remove(pid);
    }

    /** Take the slot for a new pipe. */
    method Allocate(newName: Option<string>)
      requires Valid()
      modifies Repr
      ensures Valid() && View() == NewPipe(newName)
    {
      Reset();
      inUse := true;
      if newName.Some? {
        name := Stored(newName.value, PIPE_NAME_LEN);
        isNamed := true;
        opens := 1;
      }
    }

    method Reopen()
      requires Valid()
      modifies `opens
      ensures Valid() && View() == old(View()).(opens := old(View()).opens + 1)
    {
      opens := opens + 1;
    }
  }

  /** A byte written behind the last one is added at the end. */
  lemma Appended(ring: seq<Byte>, first: nat, n: nat, b: Byte)
    requires |ring| == BUFFER_SIZE && first < BUFFER_SIZE && n < BUFFER_SIZE
    ensures Window(ring[Ahead(first, n, BUFFER_SIZE) := b], first, n + 1) == Window(ring, first, n) + [b]
  {
    hide Ahead;
    forall k | 0 <= k < n ensures Ahead(first, k, BUFFER_SIZE) != Ahead(first, n, BUFFER_SIZE) { AheadDiffers(first, k, n, BUFFER_SIZE); }
  }

  /** Counting from n places on is counting from the start and adding n. */
  ghost predicate Shift(first: nat, n: nat, left: nat) {
    forall k :: 0 <= k <= left ==> Shifted(first, n, k)
  }

  predicate Shifted(first: nat, n: nat, k: nat) {
    Ahead(Ahead(first, n, BUFFER_SIZE), k, BUFFER_SIZE) == Ahead(first, n + k, BUFFER_SIZE)
  }

  lemma PlaceFirst(first: nat)
    requires first < BUFFER_SIZE
    ensures Ahead(first, 0, BUFFER_SIZE) == first && forall left :: Shift(first, 0, left)
  {
    WrapOnce(first, BUFFER_SIZE);
  }

  lemma StepOn(first: nat, n: nat, left: nat)
    requires first < BUFFER_SIZE && n + left <= BUFFER_SIZE && left > 0
    ensures Shift(first, n + 1, left - 1) && (Ahead(first, n, BUFFER_SIZE) + 1) % BUFFER_SIZE == Ahead(first, n + 1, BUFFER_SIZE)
  {
    hide Ahead;
    AheadNext(first, n, BUFFER_SIZE);
    var m := n + 1;
    forall k: nat | k < left ensures Shifted(first, m, k) {
      PlaceTwice(first, m, k);
    }
  }

  lemma PlaceTwice(first: nat, n: nat, k: nat)
    requires first < BUFFER_SIZE && n + k <= BUFFER_SIZE
    ensures Ahead(Ahead(first, n, BUFFER_SIZE), k, BUFFER_SIZE) == Ahead(first, n + k, BUFFER_SIZE)
  {
    WrapOnce(first + n, BUFFER_SIZE);
    WrapOnce(first + n + k, BUFFER_SIZE);
    WrapOnce(Ahead(first, n, BUFFER_SIZE) + k, BUFFER_SIZE);
  }
}
