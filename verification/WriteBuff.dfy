/** The two halves of `write_buff` and the buffers they own (async_net/sock_buff.cpp, the Win32 branch), called
    one at a time: how the written bytes lie in raw buffers and segment tables.  `SendProtocol` has the locks. */
module WriteBuff {
  type Byte = x: int | 0 <= x < 0x100

  const PAGE_SIZE: nat := 8192

  // `slide` is a uint32_t, and so is size_t on 32-bit Windows.
  const WORD: nat := 0x1_0000_0000

  // A WSABUF: the first `len` bytes of `buf`.
  datatype Segment = Segment(buf: array?<Byte>, len: nat)

  // ---------------------------------------------------------------- arithmetic

  function Sum32(a: nat, b: nat): nat { (a + b) % WORD }

  // Lines 160-164: the size of the buffer that replaces one that is too small.
  function Room(llen: nat): nat {
    if llen > PAGE_SIZE then Sum32(llen, 4095) / 4096 * 4096 else PAGE_SIZE
  }

  /** A page, or the least multiple of 4096 that holds the bytes; nothing at all when the sum wraps. */
  lemma RoomIs(llen: nat)
    requires llen < WORD
    ensures llen <= PAGE_SIZE ==> Room(llen) == PAGE_SIZE
    ensures PAGE_SIZE < llen <= WORD - 4096 ==> Room(llen) % 4096 == 0 && llen <= Room(llen) < llen + 4096
    ensures llen > WORD - 4096 ==> Room(llen) == 0
  {
    assert llen <= WORD - 4096 ==> Sum32(llen, 4095) == llen + 4095;
    assert llen > WORD - 4096 ==> Sum32(llen, 4095) < 4096;
  }

  // Lines 143-145 and 149-151: the test both branches of `write` take.
  predicate Overflows(slide: nat, size: nat, llen: nat) {
    Sum32(slide, llen) > size
  }

  // The bytes `write` is going to copy lie in the buffer it is going to copy them to.
  predicate StaysInside(slide: nat, size: nat, llen: nat) {
    if Overflows(slide, size, llen) then llen <= Room(llen) else slide + llen <= size
  }

  // Where the next byte goes after a write that stays inside, and in a buffer of what size.
  function FilledTo(slide: nat, size: nat, llen: nat): (nat, nat) {
    if Overflows(slide, size, llen) then (llen, Room(llen)) else (slide + llen, size)
  }

  /** A write stays inside its buffer exactly when neither sum wraps, or the first wraps and is still too big. */
  lemma StaysInsideIff(slide: nat, size: nat, llen: nat)
    requires slide <= size < WORD && llen < WORD
    ensures StaysInside(slide, size, llen) <==>
            if slide + llen < WORD then slide + llen <= size || llen <= WORD - 4096
            else slide + llen - WORD > size && llen <= WORD - 4096
  {
    assert slide + llen >= WORD ==> Sum32(slide, llen) == slide + llen - WORD;
    assert llen + 4095 >= WORD ==> Sum32(llen, 4095) < 4096;
  }

  /** Whatever is in a buffer, a write that fills the word to its end wraps to 0, passes the test and leaves
      the buffer; so does one just below 4 GB that needs a buffer of its own. */
  lemma WrappingWritesLeave(slide: nat, size: nat)
    requires 0 < slide <= size && PAGE_SIZE <= size <= WORD - 4096
    ensures !Overflows(slide, size, WORD - slide) && !StaysInside(slide, size, WORD - slide)
    ensures !StaysInside(0, size, WORD - 1)
  {
    StaysInsideIff(slide, size, WORD - slide);
    StaysInsideIff(0, size, WORD - 1);
  }

  // ---------------------------------------------------------------- segments

  predicate Filled(x: Segment) {
    x.buf != null && 0 < x.len <= x.buf.Length && PAGE_SIZE <= x.buf.Length
  }

  ghost function BufsOf(segs: seq<Segment>): set<array<Byte>> {
    if segs == [] then {}
    else
      var rest, last := segs[..|segs| - 1], segs[|segs| - 1].buf;
      BufsOf(rest) + (if last == null then {} else {last})
  }

  // No segment is empty, and no two are in the same buffer.
  ghost predicate Laid(segs: seq<Segment>) {
    segs == [] ||
    var rest, last := segs[..|segs| - 1], segs[|segs| - 1];
    Laid(rest) && Filled(last) && last.buf !in BufsOf(rest)
  }

  // The bytes the segments name, in table order, as WSASend gathers them.
  ghost function Gather(segs: seq<Segment>): seq<Byte>
    requires Laid(segs)
    reads BufsOf(segs)
  {
    if segs == [] then []
    else
      var rest, last := segs[..|segs| - 1], segs[|segs| - 1];
      Gather(rest) + last.buf[..last.len]
  }

  lemma {:induction false} SegmentAt(segs: seq<Segment>, i: nat)
    requires i < |segs| && Laid(segs)
    ensures Filled(segs[i]) && segs[i].buf !in BufsOf(segs[..i]) && segs[i].buf in BufsOf(segs)
    ensures BufsOf(segs[..i + 1]) == BufsOf(segs[..i]) + {segs[i].buf}
  {
    var rest := segs[..|segs| - 1];
    if i < |rest| {
      SegmentAt(rest, i);
      assert rest[..i] == segs[..i] && rest[..i + 1] == segs[..i + 1];
    } else {
      assert segs[..i + 1] == segs;
    }
  }

  lemma SaveOne(segs: seq<Segment>, x: Segment)
    requires Laid(segs) && Filled(x) && x.buf !in BufsOf(segs)
    ensures Laid(segs + [x]) && BufsOf(segs + [x]) == BufsOf(segs) + {x.buf}
    ensures Gather(segs + [x]) == Gather(segs) + x.buf[..x.len]
  {
    assert (segs + [x])[..|segs|] == segs;
  }

  // ---------------------------------------------------------------- BuffPool

  /** Pages of at least PAGE_SIZE bytes for reuse; called from one thread at a time it is a queue. */
  class BuffPool {
    var pages: seq<array<Byte>>

    // Every buffer that has been given up: those in `pages`, and those given back to the system.
    ghost var givenUp: set<array<Byte>>

    ghost predicate Valid() reads this {
      && (forall i :: 0 <= i < |pages| ==> pages[i].Length >= PAGE_SIZE && pages[i] in givenUp)
      && (forall i, j :: 0 <= i < j < |pages| ==> pages[i] != pages[j])
    }

    constructor ()
      ensures Valid() && pages == [] && givenUp == {}
    {
      pages, givenUp := [], {};
    }

    /** A buffer nobody else has: taken out of the pool, or new. */
    method Get(size: nat) returns (b: array<Byte>)
      requires Valid()
      modifies this
      ensures Valid() && givenUp == old(givenUp) - {b}
      ensures b.Length >= size && b.Length >= PAGE_SIZE
      ensures if size <= PAGE_SIZE && old(pages) != [] then old(pages) == [b] + pages
              else fresh(b) && pages == old(pages)
      ensures fresh(b) || b in old(givenUp)
    {
      if size <= PAGE_SIZE {
        if pages != [] {
          b := pages[0];
          pages := pages[1..];
        } else {
          b := new Byte[PAGE_SIZE];
        }
      } else {
        b := new Byte[size];
      }
      givenUp := givenUp - {b};
    }

    /** Gives a buffer up, which nobody may have done before. */
    method Release(b: array<Byte>, size: nat)
      requires Valid() && b.Length >= PAGE_SIZE && b !in givenUp
      modifies this
      ensures Valid() && givenUp == old(givenUp) + {b}
      ensures pages == if size <= PAGE_SIZE then old(pages) + [b] else old(pages)
    {
      givenUp := givenUp + {b};
      if size <= PAGE_SIZE {
        pages := pages + [b];
      }
    }
  }

  // memcpy(&dst[at], data, |data|)
  method CopyInto(dst: array<Byte>, at: nat, data: seq<Byte>)
    requires at + |data| <= dst.Length
    modifies dst
    ensures dst[..at] == old(dst[..at])
    ensures dst[..at + |data|] == old(dst[..at]) + data
  {
    var i := 0;
    while i < |data|
      invariant 0 <= i <= |data|
      invariant dst[..at] == old(dst[..at])
      invariant dst[at..at + i] == data[..i]
    {
      dst[at + i] := data[i];
      i := i + 1;
    }
    assert dst[..at + |data|] == dst[..at] + dst[at..at + |data|];
  }

  // No buffer is lost between an owner and the pool, and nothing else is given up.
  ghost predicate Moved(owned: set<array<Byte>>, givenUp: set<array<Byte>>,
                        owned': set<array<Byte>>, givenUp': set<array<Byte>>)
  {
    && (forall b <- owned :: b in owned' || b in givenUp')
    && (forall b <- givenUp :: b in owned' || b in givenUp')
    && (forall b <- givenUp' :: b in owned || b in givenUp)
  }

  // ---------------------------------------------------------------- buffex

  class Buffex {
    var buff: array<Byte>
    var buffSize: nat
    var slide: nat
    var table: array<Segment>
    var tableSlide: nat

    // The segments put in the table, every buffer this half owns, and the bytes in it.
    ghost var saved: seq<Segment>
    ghost var owned: set<array<Byte>>
    ghost var text: seq<Byte>

    ghost predicate Sized() reads this, table {
      && 8 <= table.Length && tableSlide <= table.Length && table[..tableSlide] == saved
      && PAGE_SIZE <= buffSize <= buff.Length && buffSize < WORD && slide <= buffSize
      && Laid(saved)
      && owned == BufsOf(saved) + {buff}
    }

    /** A half that is being written: the current buffer is not in the table, and once there are segments in
        the table it is not empty. */
    ghost predicate Filling() reads this, table, owned {
      Open() && (tableSlide > 0 ==> slide > 0)
    }

    ghost predicate Open() reads this, table, owned {
      && Sized() && buff !in BufsOf(saved)
      && text == Gather(saved) + buff[..slide]
    }

    /** A half that is being sent: everything is in the table, the current buffer last. */
    ghost predicate Sending() reads this, table, owned {
      && Sized() && tableSlide > 0 && saved[tableSlide - 1] == Segment(buff, slide)
      && text == Gather(saved)
    }

    ghost predicate Empty() reads this, table {
      Sized() && tableSlide == 0 && slide == 0 && text == []
    }

    constructor (pool: BuffPool)
      requires pool.Valid()
      modifies pool
      ensures pool.Valid() && Empty() && Filling() && fresh(table)
      ensures owned == {buff} && buff !in pool.givenUp && (fresh(buff) || buff in old(pool.givenUp))
      ensures pool.givenUp == old(pool.givenUp) - {buff}
    {
      var b := pool.Get(PAGE_SIZE);
      buff, buffSize, slide := b, PAGE_SIZE, 0;
      table := new Segment[8](_ => Segment(null, 0));
      tableSlide := 0;
      saved, owned, text := [], {b}, [];
    }

    /** `put_buff`: the filled part of the current buffer becomes the last segment; a full table doubles. */
    method PutBuff()
      requires Filling() && slide > 0
      modifies this`table, this`tableSlide, this`saved, table
      ensures Sending() && saved == old(saved) + [Segment(buff, slide)]
      ensures table == old(table) || (fresh(table) && table.Length == 2 * old(table.Length))
    {
      if tableSlide >= table.Length {
        MakeRoom();
      }
      PutRow();
    }

    // Lines 103-104.
    method PutRow()
      requires Filling() && slide > 0 && tableSlide < table.Length
      modifies this`tableSlide, this`saved, table
      ensures Sending() && saved == old(saved) + [Segment(buff, slide)]
    {
      table[tableSlide] := Segment(buff, slide);
      tableSlide := tableSlide + 1;
      SaveOne(saved, Segment(buff, slide));
      saved := saved + [Segment(buff, slide)];
    }

    // Lines 89-101.
    method MakeRoom()
      requires Filling()
      modifies this`table
      ensures Filling() && fresh(table) && table.Length == 2 * old(table.Length)
    {
      Double();
      assert table[..tableSlide] == saved;
    }

    // Lines 92-100.
    method Double()
      requires 8 <= table.Length
      modifies this`table
      ensures fresh(table) && table.Length == 2 * old(table.Length)
      ensures table[..old(table.Length)] == old(table[..])
    {
      var bigger := new Segment[2 * table.Length](_ => Segment(null, 0));
      var i := 0;
      while i < table.Length
        invariant 0 <= i <= table.Length
        invariant fresh(bigger) && bigger.Length == 2 * table.Length && table == old(table)
        invariant bigger[..i] == table[..i] && table[..] == old(table[..])
      {
        bigger[i] := table[i];
        i := i + 1;
      }
      table := bigger;
    }

    /** `clear`: the segments' buffers are given up, each once, but for the current one, which is kept. */
    method Clear(pool: BuffPool)
      requires Sized() && pool.Valid() && owned !! pool.givenUp
      modifies this`slide, this`tableSlide, this`saved, this`owned, this`text, table, pool
      ensures Empty() && pool.Valid()
      ensures owned == {buff}
      ensures forall b :: b in pool.givenUp <==> b in old(pool.givenUp) || (b in old(owned) && b != buff)
    {
      slide := 0;
      GiveUpSaved(pool);
      tableSlide := 0;
      saved, owned, text := [], {buff}, [];
    }

    // Lines 74-79.
    method GiveUpSaved(pool: BuffPool)
      requires tableSlide <= table.Length && table[..tableSlide] == saved && Laid(saved)
      requires pool.Valid() && BufsOf(saved) !! pool.givenUp
      modifies table, pool
      ensures pool.Valid() && pool.givenUp == old(pool.givenUp) + (BufsOf(saved) - {buff})
    {
      var i := 0;
      while i < tableSlide
        invariant 0 <= i <= tableSlide == |saved|
        invariant forall k :: i <= k < tableSlide ==> table[k] == saved[k]
        invariant pool.Valid()
        invariant pool.givenUp == old(pool.givenUp) + (BufsOf(saved[..i]) - {buff})
      {
        SegmentAt(saved, i);
        if buff != table[i].buf {
          pool.Release(table[i].buf, table[i].len);
        }
        table[i] := table[i].(len := 0);
        i := i + 1;
      }
      assert saved[..i] == saved;
    }

    /** The destructor: every buffer is given up, each once. */
    method Destroy(pool: BuffPool)
      requires Sized() && pool.Valid() && owned !! pool.givenUp
      modifies pool
      ensures pool.Valid()
      ensures forall b :: b in pool.givenUp <==> b in old(pool.givenUp) || b in owned
    {
      var i := 0;
      while i < tableSlide
        invariant 0 <= i <= tableSlide == |saved|
        invariant pool.Valid()
        invariant pool.givenUp == old(pool.givenUp) + (BufsOf(saved[..i]) - {buff})
      {
        SegmentAt(saved, i);
        if buff != table[i].buf {
          pool.Release(table[i].buf, table[i].len);
        }
        i := i + 1;
      }
      assert saved[..i] == saved;
      pool.Release(buff, buffSize);
    }

    // Lines 152-156: the current buffer is saved, or released when nothing is in it.
    method SetAside(pool: BuffPool)
      requires Filling() && pool.Valid() && owned !! pool.givenUp
      modifies this`table, this`tableSlide, this`saved, table, pool
      ensures 8 <= table.Length && tableSlide <= table.Length && table[..tableSlide] == saved
      ensures Laid(saved)
      ensures pool.Valid() && BufsOf(saved) !! pool.givenUp
      ensures Gather(saved) == text
      ensures saved == if old(slide) > 0 then old(saved) + [Segment(old(buff), old(slide))] else old(saved)
      ensures forall b :: b in BufsOf(saved) || b in pool.givenUp <==> b in old(owned) || b in old(pool.givenUp)
      ensures BufsOf(saved) <= old(owned)
      ensures table == old(table) || fresh(table)
    {
      if slide > 0 {
        PutBuff();
      } else {
        pool.Release(buff, buffSize);
      }
    }

    // Lines 152-165: a new buffer takes the place of one that is too small.
    method Renew(room: nat, pool: BuffPool)
      requires Filling() && pool.Valid() && owned !! pool.givenUp
      requires PAGE_SIZE <= room < WORD
      modifies this, table, pool
      ensures Open() && slide == 0 && buffSize == room && text == old(text)
      ensures saved == if old(slide) > 0 then old(saved) + [Segment(old(buff), old(slide))] else old(saved)
      ensures pool.Valid() && owned !! pool.givenUp
      ensures Moved(old(owned), old(pool.givenUp), owned, pool.givenUp)
      ensures forall b <- owned :: fresh(b) || b in old(owned) || b in old(pool.givenUp)
      ensures table == old(table) || fresh(table)
    {
      SetAside(pool);
      slide := 0;
      Refill(room, pool);
    }

    // Lines 160-165.
    method Refill(room: nat, pool: BuffPool)
      requires 8 <= table.Length && tableSlide <= table.Length && table[..tableSlide] == saved
      requires Laid(saved) && Gather(saved) == text && slide == 0 && PAGE_SIZE <= room < WORD
      requires pool.Valid() && BufsOf(saved) !! pool.givenUp && BufsOf(saved) <= owned
      modifies this`buff, this`buffSize, this`owned, pool
      ensures Open() && buffSize == room
      ensures pool.Valid() && owned !! pool.givenUp
      ensures owned == BufsOf(saved) + {buff} && pool.givenUp == old(pool.givenUp) - {buff}
      ensures fresh(buff) || buff in old(pool.givenUp)
    {
      buffSize := room;
      buff := pool.Get(room);
      assert buff !in BufsOf(saved);
      owned := BufsOf(saved) + {buff};
    }

    // Lines 168-169 and 175-176: there is room behind the bytes already there.
    method Append(data: seq<Byte>)
      requires Open() && slide + |data| <= buffSize
      modifies this`slide, this`text, buff
      ensures Open() && text == old(text) + data && slide == old(slide) + |data|
    {
      var at := slide;
      slide := at + |data|;
      CopyInto(buff, at, data);
      text := text + data;
    }

    // Lines 152-169.
    method Overflow(data: seq<Byte>, room: nat, pool: BuffPool)
      requires Filling() && pool.Valid() && owned !! pool.givenUp
      requires 0 < |data| <= room && PAGE_SIZE <= room < WORD
      modifies this, table, pool, owned, pool.givenUp
      ensures buffSize == room && slide == |data|
      ensures tableSlide == old(tableSlide) + (if old(slide) > 0 then 1 else 0)
      ensures Filling() && pool.Valid() && owned !! pool.givenUp
      ensures text == old(text) + data
      ensures Moved(old(owned), old(pool.givenUp), owned, pool.givenUp)
      ensures forall b <- owned :: fresh(b) || b in old(owned) || b in old(pool.givenUp)
      ensures table == old(table) || fresh(table)
    {
      Renew(room, pool);
      assert buff in owned;
      Append(data);
    }

    /** `write`, once the half is locked: the bytes go behind those already there, in this buffer or in a new
        one.  The answer is false when the bytes would not stay inside the buffer, and the model stops there. */
    method Write(data: seq<Byte>, pool: BuffPool) returns (ok: bool)
      requires Filling() && pool.Valid() && owned !! pool.givenUp
      requires |data| < WORD
      modifies this, table, pool, owned, pool.givenUp
      ensures ok == StaysInside(old(slide), old(buffSize), |data|)
      ensures (slide, buffSize) ==
        if ok then FilledTo(old(slide), old(buffSize), |data|) else (old(slide), old(buffSize))
      ensures tableSlide == old(tableSlide)
        + (if ok && Overflows(old(slide), old(buffSize), |data|) && old(slide) > 0 then 1 else 0)
      ensures ok && !Overflows(old(slide), old(buffSize), |data|) ==> buff == old(buff) && saved == old(saved)
      ensures Filling() && pool.Valid() && owned !! pool.givenUp
      ensures text == if ok then old(text) + data else old(text)
      ensures Moved(old(owned), old(pool.givenUp), owned, pool.givenUp)
      ensures forall b <- owned :: fresh(b) || b in old(owned) || b in old(pool.givenUp)
      ensures table == old(table) || fresh(table)
    {
      if Sum32(slide, |data|) > buffSize {
        var room := Room(|data|);
        if |data| > room {
          return false;
        }
        Overflow(data, room, pool);
      } else {
        if slide + |data| > buffSize {
          return false;
        }
        Append(data);
      }
      return true;
    }
  }

  // A half that is left alone stays what it is.
  twostate lemma LeftAlone(h: Buffex)
    requires unchanged(h) && unchanged(h.table) && unchanged(h.owned)
    ensures h.Filling() == old(h.Filling()) && h.Sending() == old(h.Sending()) && h.Empty() == old(h.Empty())
  {
  }

  // Every buffer that was in one of the three places is in one of them now.
  ghost predicate NoneLost(a: set<array<Byte>>, b: set<array<Byte>>, c: set<array<Byte>>,
                           a': set<array<Byte>>, b': set<array<Byte>>, c': set<array<Byte>>)
  {
    && (forall x <- a :: x in a' || x in b' || x in c')
    && (forall x <- b :: x in a' || x in b' || x in c')
    && (forall x <- c :: x in a' || x in b' || x in c')
  }

  // ---------------------------------------------------------------- write_buff

  datatype Request = Put(data: seq<Byte>) | Send | Complete

  // The bytes of the writes, in order.
  function Written(requests: seq<Request>): seq<Byte> {
    if requests == [] then [] else Bytes(requests[0]) + Written(requests[1..])
  }

  function Bytes(request: Request): seq<Byte> { if request.Put? then request.data else [] }

  lemma WrittenFirst(before: seq<Byte>, requests: seq<Request>)
    ensures before + Written(requests) ==
      if requests == [] then before else before + Bytes(requests[0]) + Written(requests[1..])
  {
    if requests != [] {
      assert before + (Bytes(requests[0]) + Written(requests[1..]))
          == before + Bytes(requests[0]) + Written(requests[1..]);
    }
  }

  // How full the half being written is and of what size its buffer, the size of the other's, and whether that
  // is in flight.
  datatype Level = Level(slide: nat, size: nat, other: nat, sending: bool)

  predicate Inside(l: Level, request: Request) {
    request.Put? ==> StaysInside(l.slide, l.size, |request.data|)
  }

  function LevelAfter(l: Level, request: Request): Level {
    match request
    case Put(data) =>
      var (slide, size) := FilledTo(l.slide, l.size, |data|);
      l.(slide := slide, size := size)
    case Send => if !l.sending && l.slide > 0 then Level(0, l.other, l.size, true) else l
    case Complete => l.(sending := false)
  }

  /** No write of a run leaves its buffer. */
  predicate AllInside(l: Level, requests: seq<Request>)
    decreases |requests|
  {
    requests == [] || (Inside(l, requests[0]) && AllInside(LevelAfter(l, requests[0]), requests[1..]))
  }

  predicate AllBelow(requests: seq<Request>, bound: nat) {
    forall i :: 0 <= i < |requests| && requests[i].Put? ==> |requests[i].data| < bound
  }

  /** None does while writes are below 2 GB. */
  lemma {:induction false} SmallRunsStayInside(l: Level, requests: seq<Request>)
    requires l.slide <= l.size <= WORD / 2 && l.other <= WORD / 2 && AllBelow(requests, WORD / 2 - 4095)
    ensures AllInside(l, requests)
    decreases |requests|
  {
    if requests != [] {
      if requests[0].Put? { SmallStaysInside(l.slide, l.size, |requests[0].data|); }
      SmallRunsStayInside(LevelAfter(l, requests[0]), requests[1..]);
    }
  }

  lemma SmallStaysInside(slide: nat, size: nat, llen: nat)
    requires slide <= size < WORD && llen < WORD
    ensures size <= WORD / 2 && llen < WORD / 2 - 4095 ==> StaysInside(slide, size, llen) && Room(llen) <= WORD / 2
  {
    StaysInsideIff(slide, size, llen);
  }

  class WriteBuffer {
    var writeHalf: Buffex
    var sendHalf: Buffex
    var sendFlag: bool
    const pool: BuffPool

    // The bytes whose send has completed.
    ghost var completed: seq<Byte>
    ghost var Repr: set<object>

    /** Every raw buffer is the current one of one half, or in one row of one half's table, or given up, and only
        one of these. */
    ghost predicate Valid()
      reads this, Repr
    {
      && this in Repr && pool in Repr && pool.givenUp <= Repr
      && writeHalf in Repr && writeHalf.table in Repr && writeHalf.owned <= Repr
      && sendHalf in Repr && sendHalf.table in Repr && sendHalf.owned <= Repr
      && writeHalf != sendHalf && writeHalf.table != sendHalf.table
      && writeHalf.Filling()
      && (if sendFlag then sendHalf.Sending() else sendHalf.Empty())
      && pool.Valid()
      && writeHalf.owned !! sendHalf.owned
      && writeHalf.owned !! pool.givenUp
      && sendHalf.owned !! pool.givenUp
    }

    // Every byte written, in order, as far as the halves know.
    ghost function Stream(): seq<Byte> reads this, writeHalf, sendHalf {
      completed + InFlight() + Waiting()
    }

    ghost function InFlight(): seq<Byte> reads this, sendHalf { sendHalf.text }

    ghost function Waiting(): seq<Byte> reads this, writeHalf { writeHalf.text }

    constructor (pool: BuffPool)
      requires pool.Valid()
      modifies pool
      ensures Valid() && Stream() == [] && !sendFlag
      ensures this.pool == pool && fresh(Repr - {pool} - old(pool.givenUp))
    {
      this.pool := pool;
      var sending := new Buffex(pool);
      var writing := new Buffex(pool);
      sendHalf, writeHalf := sending, writing;
      sendFlag := false;
      completed := [];
      new;
      Repr := {this, pool, sending, writing, sending.table, writing.table, sending.buff, writing.buff};
      Repr := Repr + pool.givenUp;
    }

    /** `write`: a write that stays inside its buffer adds its bytes to the stream, and no other write does. */
    method Write(data: seq<Byte>) returns (ok: bool)
      requires Valid() && |data| < WORD
      modifies this`Repr, writeHalf, writeHalf.table, writeHalf.owned, pool, pool.givenUp
      ensures Valid() && fresh(Repr - old(Repr))
      ensures ok == StaysInside(old(writeHalf.slide), old(writeHalf.buffSize), |data|)
      ensures (writeHalf.slide, writeHalf.buffSize) ==
        if ok then FilledTo(old(writeHalf.slide), old(writeHalf.buffSize), |data|)
        else (old(writeHalf.slide), old(writeHalf.buffSize))
      ensures Stream() == if ok then old(Stream()) + data else old(Stream())
      ensures InFlight() == old(InFlight()) && unchanged(sendHalf)
      ensures NoneLost(old(writeHalf.owned), old(sendHalf.owned), old(pool.givenUp),
                       writeHalf.owned, sendHalf.owned, pool.givenUp)
    {
      ghost var sent, waiting := completed + InFlight(), Waiting();
      ok := Fill(data);
      assert sent + (waiting + data) == sent + waiting + data;
    }

    // The half that is written gets the bytes; the other is left alone.
    method Fill(data: seq<Byte>) returns (ok: bool)
      requires Valid() && |data| < WORD
      modifies this`Repr, writeHalf, writeHalf.table, writeHalf.owned, pool, pool.givenUp
      ensures ok == StaysInside(old(writeHalf.slide), old(writeHalf.buffSize), |data|)
      ensures (writeHalf.slide, writeHalf.buffSize) ==
        if ok then FilledTo(old(writeHalf.slide), old(writeHalf.buffSize), |data|)
        else (old(writeHalf.slide), old(writeHalf.buffSize))
      ensures Waiting() == if ok then old(Waiting()) + data else old(Waiting())
      ensures writeHalf.Filling() && pool.Valid() && writeHalf.owned !! pool.givenUp
      ensures unchanged(sendHalf) && (if sendFlag then sendHalf.Sending() else sendHalf.Empty())
      ensures writeHalf.owned !! sendHalf.owned && sendHalf.owned !! pool.givenUp && pool.givenUp <= Repr
      ensures writeHalf.table in Repr && writeHalf.owned <= Repr && old(Repr) <= Repr && fresh(Repr - old(Repr))
      ensures Moved(old(writeHalf.owned), old(pool.givenUp), writeHalf.owned, pool.givenUp)
      ensures writeHalf.table != sendHalf.table
    {
      ok := writeHalf.Write(data, pool);
      Repr := Repr + writeHalf.owned + {writeHalf.table};
      LeftAlone(sendHalf);
    }

    /** `send_buff`: everything waiting goes into flight, unless something is in flight or nothing waits. */
    method SendBuff() returns (sent: bool)
      requires Valid()
      modifies this`writeHalf, this`sendHalf, this`sendFlag, this`Repr, writeHalf, writeHalf.table
      ensures Valid() && fresh(Repr - old(Repr))
      ensures sent <==> !old(sendFlag) && old(Waiting()) != []
      ensures sent ==> sendFlag && InFlight() == old(Waiting()) && Waiting() == []
      ensures !sent ==> unchanged(this`writeHalf, this`sendHalf) && unchanged(writeHalf)
      ensures sent ==> writeHalf == old(sendHalf) && sendHalf == old(writeHalf)
      ensures sent <==> !old(sendFlag) && old(writeHalf.slide) > 0
      ensures sent ==> writeHalf.slide == 0
      ensures completed == old(completed) && Stream() == old(Stream())
      ensures old(writeHalf).buffSize == old(writeHalf.buffSize) && unchanged(old(sendHalf))
      ensures NoneLost(old(writeHalf.owned), old(sendHalf.owned), old(pool.givenUp),
                       writeHalf.owned, sendHalf.owned, pool.givenUp)
    {
      if sendFlag {
        return false;
      }
      if writeHalf.tableSlide <= 0 && writeHalf.slide <= 0 {
        return false;
      }
      sendFlag := true;
      Exchange();
      return true;
    }

    // Lines 246-252.
    method Exchange()
      requires writeHalf.slide > 0 && sendHalf.Empty() && writeHalf.Filling() && writeHalf != sendHalf
      requires writeHalf.table != sendHalf.table && writeHalf.owned !! sendHalf.owned
      modifies this`writeHalf, this`sendHalf, this`Repr, writeHalf, writeHalf.table
      ensures sendHalf == old(writeHalf) && writeHalf == old(sendHalf) && Repr == old(Repr) + {sendHalf.table}
      ensures sendHalf.Sending() && writeHalf.Filling() && Waiting() == [] && InFlight() == old(Waiting())
      ensures sendHalf.table == old(writeHalf.table) || fresh(sendHalf.table)
      ensures sendHalf.owned == old(writeHalf.owned) && sendHalf.buffSize == old(writeHalf.buffSize)
    {
      var buff := writeHalf;
      writeHalf := sendHalf;
      if buff.slide > 0 {
        buff.PutBuff();
      }
      sendHalf := buff;
      Repr := Repr + {buff.table};
      LeftAlone(writeHalf);
    }

    /** `clear`, the completion of a send: what was in flight is completed, and its buffers are given up but for
        the one the half keeps. */
    method Clear()
      requires Valid()
      modifies this`completed, this`sendFlag, sendHalf, sendHalf.table, pool
      ensures Valid() && Stream() == old(Stream())
      ensures !sendFlag && InFlight() == [] && sendHalf.buffSize == old(sendHalf.buffSize)
      ensures unchanged(this`writeHalf) && unchanged(writeHalf)
      ensures completed == old(completed) + old(InFlight()) && Waiting() == old(Waiting())
      ensures NoneLost(old(writeHalf.owned), old(sendHalf.owned), old(pool.givenUp),
                       writeHalf.owned, sendHalf.owned, pool.givenUp)
    {
      completed := completed + InFlight();
      sendHalf.Clear(pool);
      sendFlag := false;
      LeftAlone(writeHalf);
    }

    /** `init`, for another connection: whatever was there is dropped. */
    method Init()
      requires Valid()
      modifies this`completed, this`sendFlag, sendHalf, sendHalf.table, writeHalf, writeHalf.table, pool
      ensures Valid()
      ensures !sendFlag && Stream() == []
      ensures NoneLost(old(writeHalf.owned), old(sendHalf.owned), old(pool.givenUp),
                       writeHalf.owned, sendHalf.owned, pool.givenUp)
    {
      sendHalf.Clear(pool);
      writeHalf.Clear(pool);
      sendFlag := false;
      completed := [];
    }

    /** The destructor: every buffer is given up, each once. */
    method Destroy()
      requires Valid()
      modifies pool
      ensures pool.Valid()
      ensures NoneLost(old(writeHalf.owned), old(sendHalf.owned), old(pool.givenUp), {}, {}, pool.givenUp)
    {
      sendHalf.Destroy(pool);
      writeHalf.Destroy(pool);
    }

    ghost function Levels(): Level reads this, writeHalf, sendHalf {
      Level(writeHalf.slide, writeHalf.buffSize, sendHalf.buffSize, sendFlag)
    }

    /** Any run of writes, sends and completions: it goes through if and only if no write leaves its buffer, and
        then completed bytes, bytes in flight and waiting bytes are all bytes ever written, in order. */
    method Run(requests: seq<Request>) returns (ok: bool)
      requires Valid() && AllBelow(requests, WORD)
      modifies Repr
      ensures Valid() && forall o <- Repr :: o in old(Repr) || fresh(o)
      ensures ok <==> AllInside(old(Levels()), requests)
      ensures ok ==> Stream() == old(Stream()) + Written(requests)
      decreases |requests|
    {
      ok := true;
      WrittenFirst(Stream(), requests);
      if requests != [] {
        ok := Serve(requests[0]);
        if ok { ok := Run(requests[1..]); }
      }
    }

    method Serve(request: Request) returns (ok: bool)
      requires Valid() && (request.Put? ==> |request.data| < WORD)
      modifies Repr
      ensures Valid() && fresh(Repr - old(Repr))
      ensures ok <==> Inside(old(Levels()), request)
      ensures ok ==> Levels() == LevelAfter(old(Levels()), request) && Stream() == old(Stream()) + Bytes(request)
    {
      ok := true;
      match request
      case Put(data) =>
        ok := Write(data);
      case Send =>
        var _ := SendBuff();
      case Complete =>
        if sendFlag { Clear(); }
    }
  }
}
