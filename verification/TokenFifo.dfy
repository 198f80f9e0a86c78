// The token FIFO between two actors: nine cells, a write and a read pointer of
// eight bits each (src/fifo.c).
module TokenFifo {
  import opened Machine

  const MAXFIFO := 9

  datatype Fifo<T> = Fifo(cells: seq<T>, wptr: int, rptr: int)

  // Both pointers name a cell.
  predicate InRange<T>(f: Fifo<T>) {
    |f.cells| == MAXFIFO && 0 <= f.wptr < MAXFIFO && 0 <= f.rptr < MAXFIFO
  }

  // The difference is stored in an unsigned byte before it is tested for being
  // negative, so the correction by MAXFIFO never happens.
  function Size<T>(f: Fifo<T>): int { (f.wptr - f.rptr) % 256 }

  predicate Full<T>(f: Fifo<T>) { Size(f) == MAXFIFO - 1 }

  predicate Empty<T>(f: Fifo<T>) { f.wptr == f.rptr }

  function Put<T>(f: Fifo<T>, t: T): (r: Fifo<T>)
    requires InRange(f)
    ensures InRange(r)
  {
    if Full(f) then f else Fifo(f.cells[f.wptr := t], (f.wptr + 1) % MAXFIFO, f.rptr)
  }

  // What get_token leaves behind; it changes nothing when the FIFO is empty.
  function Drop<T>(f: Fifo<T>): (r: Fifo<T>)
    requires InRange(f)
    ensures InRange(r)
  {
    if Empty(f) then f else Fifo(f.cells, f.wptr, (f.rptr + 1) % MAXFIFO)
  }

  // The token get_token returns and read_token reads.
  function Head<T>(f: Fifo<T>): T
    requires InRange(f) && !Empty(f)
  {
    f.cells[f.rptr]
  }

  // What a queue of these nine cells holds, oldest first.
  function Occupancy<T>(f: Fifo<T>): int {
    if f.wptr >= f.rptr then f.wptr - f.rptr else f.wptr - f.rptr + MAXFIFO
  }

  function Contents<T>(f: Fifo<T>): (q: seq<T>)
    requires InRange(f)
    ensures |q| == Occupancy(f)
  {
    if f.wptr >= f.rptr then f.cells[f.rptr..f.wptr] else f.cells[f.rptr..] + f.cells[..f.wptr]
  }

  // The pointers have not passed the end of the cells.
  predicate Unwrapped<T>(f: Fifo<T>) { f.rptr <= f.wptr }

  // fifo_size is right exactly while the pointers have not wrapped.
  lemma SizeIsExact<T>(f: Fifo<T>)
    requires InRange(f)
    ensures Size(f) == Occupancy(f) <==> Unwrapped(f)
  {
  }

  // A full FIFO whose pointers have wrapped loses everything on the next put.
  lemma WrappedFullIsEmptied<T>(f: Fifo<T>, t: T)
    requires InRange(f) && !Unwrapped(f) && |Contents(f)| == MAXFIFO - 1
    ensures Contents(Put(f, t)) == []
  {
    assert !Full(f) && Empty(Put(f, t));
    assert |Contents(Put(f, t))| == 0;
  }

  lemma PutLosesTokens()
    ensures
      var f := Fifo([9, 1, 2, 3, 4, 5, 6, 7, 8], 0, 1);
      Contents(f) == [1, 2, 3, 4, 5, 6, 7, 8] && Contents(Put(f, 10)) == []
  {
    WrappedFullIsEmptied(Fifo([9, 1, 2, 3, 4, 5, 6, 7, 8], 0, 1), 10);
  }

  lemma FullStays<T>(f: Fifo<T>, t: T)
    requires InRange(f) && Unwrapped(f) && |Contents(f)| >= MAXFIFO - 1
    ensures Put(f, t) == f && |Contents(f)| == MAXFIFO - 1
  {
  }

  lemma RoomyPut<T>(f: Fifo<T>, t: T)
    requires InRange(f) && Occupancy(f) < MAXFIFO - 1
    ensures Put(f, t) == Fifo(f.cells[f.wptr := t], if f.wptr == 8 then 0 else f.wptr + 1, f.rptr)
  {
    assert !Full(f);
  }

  lemma RoomyPutAppends<T>(f: Fifo<T>, t: T)
    requires InRange(f) && |Contents(f)| < MAXFIFO - 1
    ensures Contents(Put(f, t)) == Contents(f) + [t]
  {
    var cells := f.cells[f.wptr := t];
    RoomyPut(f, t);
    hide Put;
    if f.rptr <= f.wptr < 8 {
      assert cells[f.rptr..f.wptr + 1] == f.cells[f.rptr..f.wptr] + [t];
    } else if f.wptr == 8 {
      assert cells[f.rptr..] + cells[..0] == f.cells[f.rptr..8] + [t];
    } else {
      assert cells[f.rptr..] == f.cells[f.rptr..] && cells[..f.wptr + 1] == f.cells[..f.wptr] + [t];
    }
  }

  // put_token is an insertion into a queue of capacity eight exactly when the
  // FIFO is not wrapped and full.
  lemma PutIsEnqueue<T>(f: Fifo<T>, t: T)
    requires InRange(f)
    ensures
      Contents(Put(f, t)) == (if |Contents(f)| == MAXFIFO - 1 then Contents(f) else Contents(f) + [t])
      <==> Unwrapped(f) || |Contents(f)| < MAXFIFO - 1
  {
    hide Contents, Put;
    if |Contents(f)| < MAXFIFO - 1 {
      RoomyPutAppends(f, t);
    } else if Unwrapped(f) {
      FullStays(f, t);
    } else {
      WrappedFullIsEmptied(f, t);
    }
  }

  // Taking a token is removing the oldest, whatever the pointers.
  lemma DropIsDequeue<T>(f: Fifo<T>)
    requires InRange(f) && !Empty(f)
    ensures Contents(f) == [Head(f)] + Contents(Drop(f))
  {
    if f.rptr == 8 {
      assert Drop(f) == Fifo(f.cells, f.wptr, 0);
      assert f.cells[8..] == [f.cells[8]] && f.cells[..f.wptr] == f.cells[0..f.wptr];
    } else {
      assert Drop(f) == Fifo(f.cells, f.wptr, f.rptr + 1);
      TailOfContents(f);
    }
  }

  lemma TailOfContents<T>(f: Fifo<T>)
    requires InRange(f) && !Empty(f) && f.rptr < 8
    ensures Contents(f) == [f.cells[f.rptr]] + Contents(Fifo(f.cells, f.wptr, f.rptr + 1))
  {
    if f.wptr > f.rptr {
      assert f.cells[f.rptr..f.wptr] == [f.cells[f.rptr]] + f.cells[f.rptr + 1..f.wptr];
    } else {
      assert f.cells[f.rptr..] == [f.cells[f.rptr]] + f.cells[f.rptr + 1..];
      assert [f.cells[f.rptr]] + f.cells[f.rptr + 1..] + f.cells[..f.wptr]
        == [f.cells[f.rptr]] + (f.cells[f.rptr + 1..] + f.cells[..f.wptr]);
    }
  }

  // Nine puts into a fresh FIFO keep the first eight.
  function PutAll<T>(f: Fifo<T>, ts: seq<T>): (r: Fifo<T>)
    requires InRange(f)
    ensures InRange(r)
    decreases |ts|
  {
    if ts == [] then f else PutAll(Put(f, ts[0]), ts[1..])
  }

  lemma PutOnce<T>(f: Fifo<T>, t: T)
    requires InRange(f) && f.rptr == 0
    ensures InRange(Put(f, t)) && Put(f, t).rptr == 0
    ensures f.wptr < 8 ==> Put(f, t).wptr == f.wptr + 1 && Contents(Put(f, t)) == Contents(f) + [t]
    ensures f.wptr == 8 ==> Put(f, t) == f
  {
  }

  lemma {:induction false} PutAllKeepsFirstEight<T>(f: Fifo<T>, ts: seq<T>)
    requires InRange(f) && f.rptr == 0
    ensures
      var n := if f.wptr + |ts| <= 8 then |ts| else 8 - f.wptr;
      && PutAll(f, ts).rptr == 0 && PutAll(f, ts).wptr == f.wptr + n
      && Contents(PutAll(f, ts)) == Contents(f) + ts[..n]
    decreases |ts|
  {
    hide Put, Contents;
    if ts != [] {
      PutOnce(f, ts[0]);
      PutAllKeepsFirstEight(Put(f, ts[0]), ts[1..]);
      if f.wptr < 8 {
        var n := if f.wptr + |ts| <= 8 then |ts| else 8 - f.wptr;
        assert ts[..n] == [ts[0]] + ts[1..][..n - 1];
      } else {
        assert ts[..0] == ts[1..][..0];
      }
    }
  }

  // The FIFO object.
  class TokenRing<T> {
    const token: array<T>
    var wptr: uint8
    var rptr: uint8

    ghost predicate Valid()
      reads this
    {
      token.Length == MAXFIFO && wptr as int < MAXFIFO && rptr as int < MAXFIFO
    }

    ghost function State(): Fifo<T>
      reads this, token
    {
      Fifo(token[..], wptr as int, rptr as int)
    }

    // A fresh FIFO over cells with arbitrary contents.
    constructor (cells: array<T>)
      requires cells.Length == MAXFIFO
      ensures Valid() && token == cells && State() == Fifo(cells[..], 0, 0)
    {
      token := cells;
      wptr := 0;
      rptr := 0;
    }

    function FifoSize(): (n: uint8)
      requires Valid()
      reads this, token
      ensures n as int == Size(State())
    {
      ((wptr as int - rptr as int) % 256) as uint8
    }

    predicate FifoFull()
      requires Valid()
      reads this, token
      ensures FifoFull() == Full(State())
    {
      FifoSize() == 8
    }

    predicate FifoEmpty()
      requires Valid()
      reads this, token
      ensures FifoEmpty() == Empty(State())
    {
      wptr == rptr
    }

    method PutToken(t: T)
      requires Valid()
      modifies this, token
      ensures Valid() && State() == Put(old(State()), t)
    {
      if !FifoFull() {
        token[wptr] := t;
        wptr := (wptr + 1) % 9;
      }
    }

    method GetToken() returns (found: bool, t: T)
      requires Valid()
      modifies this`rptr
      ensures Valid() && State() == Drop(old(State()))
      ensures found == !Empty(old(State())) && (found ==> t == Head(old(State())))
    {
      t := token[rptr];
      found := !FifoEmpty();
      if found {
        rptr := (rptr + 1) % 9;
      }
    }
  }
}
