/** The wrong-path memory undo log (memlog.cpp) and the instrumentation that fills and drains it (pars.cpp). */
module UndoLog {
  import opened Collections

  const MAX_MEM_WRITE_LEN := 32

  /** Addresses are 64-bit and wrap around. */
  const ADDRESSES: nat := 0x1_0000_0000_0000_0000

  type Byte = x: int | 0 <= x < 256

  type Memory = map<nat, Byte>

  function At(addr: nat, i: nat): nat {
    (addr + i) % ADDRESSES
  }

  // ----- The operations as functions -----

  /** memory_buffer::save keeps the first value of each address. */
  ghost function Saved(log: Memory, addr: nat, buf: seq<Byte>): (r: Memory)
    ensures forall a :: a in log ==> a in r && r[a] == log[a]
  {
    if buf == [] then log
    else
      var n := |buf| - 1;
      var l := Saved(log, addr, buf[..n]);
      if At(addr, n) in l then l else l[At(addr, n) := buf[n]]
  }

  /** A store changes the mapped bytes it covers. */
  function Store(mem: Memory, addr: nat, data: seq<Byte>): (r: Memory)
    ensures r.Keys == mem.Keys
  {
    if data == [] then mem
    else
      var n := |data| - 1;
      var m := Store(mem, addr, data[..n]);
      if At(addr, n) in m then m[At(addr, n) := data[n]] else m
  }

  /** memory_buffer::recover: every logged byte that is mapped gets its logged value. */
  ghost function Restored(mem: Memory, log: Memory): (r: Memory)
    ensures r.Keys == mem.Keys
  {
    map a | a in mem :: if a in log then log[a] else mem[a]
  }

  /** The bytes read before a store; what is read from an unmapped address is arbitrary. */
  ghost predicate ReadFrom(mem: Memory, addr: nat, buf: seq<Byte>) {
    forall i :: 0 <= i < |buf| && At(addr, i) in mem ==> buf[i] == mem[At(addr, i)]
  }

  ghost predicate Covers(log: Memory, addr: nat, n: nat) {
    forall i :: 0 <= i < n ==> At(addr, i) in log
  }

  /** Saving the bytes about to be overwritten changes nothing that recovery would restore. */
  lemma {:induction false} SaveKeepsRestored(mem: Memory, log: Memory, addr: nat, buf: seq<Byte>)
    requires ReadFrom(mem, addr, buf)
    ensures Restored(mem, Saved(log, addr, buf)) == Restored(mem, log) && Covers(Saved(log, addr, buf), addr, |buf|)
  {
    if buf != [] {
      var n := |buf| - 1;
      SaveKeepsRestored(mem, log, addr, buf[..n]);
      var l, r := Saved(log, addr, buf[..n]), Saved(log, addr, buf);
      forall a | a in mem ensures Restored(mem, r)[a] == Restored(mem, l)[a] { }
    }
  }

  /** A store to logged addresses changes nothing that recovery would restore. */
  lemma {:induction false} StoreKeepsRestored(mem: Memory, log: Memory, addr: nat, data: seq<Byte>)
    requires Covers(log, addr, |data|)
    ensures Restored(Store(mem, addr, data), log) == Restored(mem, log)
  {
    if data != [] {
      var n := |data| - 1;
      StoreKeepsRestored(mem, log, addr, data[..n]);
    }
  }

  // ----- Whole runs -----

  datatype Write = Write(addr: nat, data: seq<Byte>)

  ghost function BytesAt(mem: Memory, addr: nat, n: nat): seq<Byte> {
    seq(n, i requires 0 <= i < n => if At(addr, i) in mem then mem[At(addr, i)] else 0)
  }

  /** Each store preceded by the save of the bytes it overwrites. */
  ghost function AfterWrites(mem: Memory, log: Memory, ws: seq<Write>): (r: (Memory, Memory)) {
    if ws == [] then (mem, log)
    else
      var (m, l) := AfterWrites(mem, log, ws[..|ws| - 1]);
      var w := ws[|ws| - 1];
      (Store(m, w.addr, w.data), Saved(l, w.addr, BytesAt(m, w.addr, |w.data|)))
  }

  /** However the writes overlap and repeat, recovery restores the memory of the last recovery point. */
  lemma {:induction false} RecoverUndoesWrites(mem: Memory, ws: seq<Write>)
    ensures var (m, l) := AfterWrites(mem, map[], ws); Restored(m, l) == mem
  {
    if ws == [] {
      assert Restored(mem, map[]) == mem;
    } else {
      RecoverUndoesWrites(mem, ws[..|ws| - 1]);
      var (m, l) := AfterWrites(mem, map[], ws[..|ws| - 1]);
      var w := ws[|ws| - 1];
      SaveKeepsRestored(m, l, w.addr, BytesAt(m, w.addr, |w.data|));
      StoreKeepsRestored(m, Saved(l, w.addr, BytesAt(m, w.addr, |w.data|)), w.addr, w.data);
    }
  }

  // ----- The frontend -----

  class MemoryBuffer {
    var mBuf: Memory

    constructor ()
      ensures mBuf == map[]
    {
      mBuf := map[];
    }

    method Save(addr: nat, len: nat, buf: seq<Byte>)
      requires len <= |buf|
      modifies this
      ensures mBuf == Saved(old(mBuf), addr, buf[..len])
    {
      var i := 0;
      while i < len
        invariant 0 <= i <= len
        invariant mBuf == Saved(old(mBuf), addr, buf[..i])
      {
        assert buf[..i + 1][..i] == buf[..i];
        var eaddr := At(addr, i);
        if eaddr !in mBuf { mBuf := mBuf[eaddr := buf[i]]; }
        i := i + 1;
      }
    }

    /** A copy to an unmapped address does nothing. */
    method Recover(mem0: Memory) returns (mem: Memory)
      modifies this
      ensures mem == Restored(mem0, old(mBuf)) && mBuf == map[]
    {
      mem := mem0;
      var rest := mBuf.Keys;
      while rest != {}
        invariant rest <= mBuf.Keys && mBuf == old(mBuf) && mem.Keys == mem0.Keys
        invariant forall a :: a in mem0 ==> mem[a] == if a in mBuf && a !in rest then mBuf[a] else mem0[a]
        decreases rest
      {
        var eaddr := AnyOf(rest);
        if eaddr in mem { mem := mem[eaddr := mBuf[eaddr]]; }
        rest := rest - {eaddr};
      }
      mBuf := map[];
      assert mem == Restored(mem0, old(mBuf));
    }
  }

  /** The instrumented program. `original` is the memory when the wrong path was entered. */
  class Frontend {
    const gLog: MemoryBuffer
    var mem: Memory
    var storeBuffer: seq<Byte>
    var wrongPath: bool
    var invalidSize: bool
    var invalidAddr: bool
    ghost var original: Memory

    /** On the wrong path the log would restore the memory of its start; elsewhere it is empty. */
    ghost predicate Valid()
      reads this, gLog
    {
      && |storeBuffer| == MAX_MEM_WRITE_LEN
      && if wrongPath then Restored(mem, gLog.mBuf) == original else gLog.mBuf == map[]
    }

    constructor (mem: Memory)
      ensures Valid() && fresh(gLog) && this.mem == mem && !wrongPath
    {
      gLog := new MemoryBuffer();
      this.mem := mem;
      storeBuffer := seq(MAX_MEM_WRITE_LEN, _ => 0);
      wrongPath, invalidSize, invalidAddr := false, false, false;
      original := mem;
    }

    method EnterWrongPath()
      requires Valid() && !wrongPath
      modifies this`wrongPath, this`original
      ensures Valid() && wrongPath && original == mem
    {
      wrongPath := true;
      original := mem;
      assert Restored(mem, map[]) == mem;
    }

    method Recover()
      requires Valid() && wrongPath
      modifies this`wrongPath, this`mem, gLog
      ensures Valid() && !wrongPath && mem == original
    {
      wrongPath := false;
      mem := gLog.Recover(mem);
    }

    /** Saves what a store is about to overwrite, unless it is too long or its address faults. */
    method ReadMemOrig(eaddr: nat, len: nat, faults: bool)
      requires Valid() && wrongPath
      modifies this`storeBuffer, this`invalidSize, this`invalidAddr, gLog
      ensures Valid() && (invalidSize <==> len > MAX_MEM_WRITE_LEN)
      ensures !invalidSize ==> (invalidAddr <==> faults)
      ensures !invalidSize && !invalidAddr ==> Covers(gLog.mBuf, eaddr, len)
    {
      invalidSize := false;
      if len > MAX_MEM_WRITE_LEN {
        invalidSize := true;
        return;
      }
      invalidAddr := false;
      if faults {
        invalidAddr := true;
        return;
      }
      var i: int := len - 1;
      while i >= 0
        invariant -1 <= i < len && |storeBuffer| == MAX_MEM_WRITE_LEN
        invariant !invalidSize && !invalidAddr && gLog.mBuf == old(gLog.mBuf)
        invariant forall k :: i < k < len && At(eaddr, k) in mem ==> storeBuffer[k] == mem[At(eaddr, k)]
      {
        if At(eaddr, i) in mem { storeBuffer := storeBuffer[i := mem[At(eaddr, i)]]; }
        i := i - 1;
      }
      SaveKeepsRestored(mem, gLog.mBuf, eaddr, storeBuffer[..len]);
      gLog.Save(eaddr, len, storeBuffer);
    }

    /** A store on the wrong path: the instrumentation runs before it, so a store that could not be logged
        is never executed. `stop` stands for the other reasons to leave the wrong path. */
    method WrongPathStore(eaddr: nat, data: seq<Byte>, faults: bool, stop: bool)
      requires Valid() && wrongPath
      modifies this, gLog
      ensures Valid() && original == old(original)
      ensures !wrongPath ==> mem == original
      ensures wrongPath <==> |data| <= MAX_MEM_WRITE_LEN && !faults && !stop
      ensures wrongPath ==> mem == Store(old(mem), eaddr, data)
    {
      ReadMemOrig(eaddr, |data|, faults);
      if invalidSize || invalidAddr || stop {
        Recover();
      } else {
        StoreKeepsRestored(mem, gLog.mBuf, eaddr, data);
        mem := Store(mem, eaddr, data);
      }
    }

    /** Any other instruction on the wrong path; a flag left by an earlier store also ends it. */
    method WrongPathOther(stop: bool)
      requires Valid() && wrongPath
      modifies this`wrongPath, this`mem, gLog
      ensures Valid() && (wrongPath <==> !invalidSize && !invalidAddr && !stop)
      ensures mem == if wrongPath then old(mem) else original
    {
      if invalidSize || invalidAddr || stop { Recover(); }
    }
  }
}
