/** The two buffers behind formatting into at most n characters: one in front of an output iterator and one
    that starts out as the caller's memory. */
module TruncatingBuffer {

  const BUFFER_SIZE: nat := 256

  function Min(a: nat, b: nat): nat {
    if a < b then a else b
  }

  /** What a formatter does to a buffer. */
  datatype Op = PushBack(c: char) | Append(text: string)

  function Text(ops: seq<Op>): string {
    if ops == [] then ""
    else
      Text(ops[..|ops| - 1]) + (match ops[|ops| - 1] case PushBack(c) => [c] case Append(text) => text)
  }

  /** fixed_buffer_traits::limit: how many of `size` characters still fit, all of them being counted. */
  function Fits(limit: nat, count: nat, size: nat): nat {
    Min(size, if limit > count then limit - count else 0)
  }

  /** What a flush hands on continues what has been handed on before. */
  lemma OutputGrows(total: string, limit: nat, count: nat, size: nat)
    requires count + size == |total|
    ensures Min(count, limit) <= Min(|total|, limit) <= |total|
    ensures total[..Min(count, limit)] + total[count..][..Fits(limit, count, size)] == total[..Min(|total|, limit)]
  {
    var n := Fits(limit, count, size);
    if n > 0 {
      assert total[count..][..n] == total[count..count + n];
      assert total[..count] + total[count..count + n] == total[..count + n];
    }
  }

  /** A text that grows at the end keeps its beginning, and its end grows alike. */
  lemma TextGrows(total: string, piece: string, count: nat, out: nat)
    requires count <= |total| && out <= |total|
    ensures (total + piece)[count..] == total[count..] + piece
    ensures (total + piece)[..out] == total[..out]
  {
  }

  /** In front of an output iterator: `output` is what the iterator has received. */
  class IteratorBuffer {
    const data: array<char>
    const limit: nat
    var size: nat
    var count: nat
    var output: string
    ghost var total: string

    ghost predicate Valid()
      reads this, data
    {
      && data.Length == BUFFER_SIZE && size <= BUFFER_SIZE
      && count + size == |total|
      && data[..size] == total[count..]
      && output == total[..Min(count, limit)]
    }

    constructor (n: nat)
      ensures Valid() && fresh(data) && limit == n && total == ""
    {
      data := new char[BUFFER_SIZE];
      limit, size, count, output, total := n, 0, 0, "", "";
    }

    method Flush()
      requires Valid()
      modifies this`size, this`count, this`output
      ensures Valid() && size == 0 && count == |total|
    {
      var n := Fits(limit, count, size);
      OutputGrows(total, limit, count, size);
      assert data[..size][..n] == data[..n];
      var filled := size;
      size := 0;
      count := count + filled;
      var i := 0;
      while i < n
        modifies this`output
        invariant 0 <= i <= n
        invariant output == old(output) + data[..i]
      {
        assert data[..i + 1] == data[..i] + [data[i]];
        output := output + [data[i]];
        i := i + 1;
      }
    }

    /** Asking for more than there is flushes a full buffer. */
    method TryReserve(capacity: nat)
      requires Valid() && capacity > size
      modifies this`size, this`count, this`output
      ensures Valid() && size < BUFFER_SIZE
    {
      if capacity > BUFFER_SIZE {
        if size == BUFFER_SIZE {
          Flush();
        }
      }
    }

    method PushBack(c: char)
      requires Valid()
      modifies this, data
      ensures Valid() && total == old(total) + [c]
    {
      TryReserve(size + 1);
      TextGrows(total, [c], count, Min(count, limit));
      data[size] := c;
      size := size + 1;
      total := total + [c];
      assert data[..size] == data[..size - 1] + [c];
    }

    method Append(text: string)
      requires Valid()
      modifies this, data
      ensures Valid() && total == old(total) + text
    {
      hide Valid;
      var begin := 0;
      while begin != |text|
        invariant 0 <= begin <= |text|
        invariant Valid() && total == old(total) + text[..begin]
        decreases |text| - begin
      {
        var n := |text| - begin;
        TryReserve(size + n);
        var room := BUFFER_SIZE - size;
        if room < n {
          n := room;
        }
        CopyPiece(text[begin..begin + n]);
        assert text[..begin + n] == text[..begin] + text[begin..begin + n];
        begin := begin + n;
      }
      assert text[..begin] == text;
    }

    method CopyPiece(piece: string)
      requires Valid() && size + |piece| <= BUFFER_SIZE
      modifies this`size, this`total, data
      ensures Valid() && total == old(total) + piece
    {
      var i := 0;
      while i < |piece|
        modifies data
        invariant 0 <= i <= |piece|
        invariant data[..size + i] == old(data[..size]) + piece[..i]
      {
        data[size + i] := piece[i];
        i := i + 1;
        assert data[..size + i] == data[..size + i - 1] + [piece[i - 1]];
        assert piece[..i] == piece[..i - 1] + [piece[i - 1]];
      }
      assert piece[..i] == piece;
      TextGrows(total, piece, count, Min(count, limit));
      total := total + piece;
      size := size + |piece|;
    }

    method Out() returns (written: string, reported: nat)
      requires Valid()
      modifies this`size, this`count, this`output
      ensures Valid() && written == output == total[..Min(limit, |total|)] && reported == |total|
    {
      Flush();
      written, reported := output, count + size;
    }
  }

  /** Formatting through an output iterator: exactly the first min(n, total) characters are written, and the
      whole length is reported. */
  method FormatToIterator(ops: seq<Op>, n: nat) returns (written: string, reported: nat)
    ensures reported == |Text(ops)|
    ensures written == Text(ops)[..Min(n, |Text(ops)|)]
  {
    var buffer := new IteratorBuffer(n);
    var i := 0;
    assert ops[..0] == [];
    while i < |ops|
      invariant 0 <= i <= |ops|
      invariant fresh(buffer) && fresh(buffer.data) && buffer.Valid() && buffer.limit == n
      invariant buffer.total == Text(ops[..i])
    {
      assert ops[..i + 1][..i] == ops[..i];
      match ops[i] {
        case PushBack(c) => buffer.PushBack(c);
        case Append(text) => buffer.Append(text);
      }
      i := i + 1;
    }
    assert ops[..i] == ops;
    written, reported := buffer.Out();
  }

  function Overwritten(was: string, at: nat, piece: string): string
    requires at + |piece| <= |was|
  {
    was[..at] + piece + was[at + |piece|..]
  }

  lemma OverwriteNothing(was: string, at: nat)
    requires at <= |was|
    ensures Overwritten(was, at, "") == was
  {
  }

  lemma OverwriteNext(was: string, at: nat, piece: string, c: char)
    requires at + |piece| < |was|
    ensures Overwritten(was, at, piece)[at + |piece| := c] == Overwritten(was, at, piece + [c])
  {
  }

  lemma OverwriteParts(was: string, at: nat, piece: string)
    requires at + |piece| <= |was|
    ensures Overwritten(was, at, piece)[..at + |piece|] == was[..at] + piece
    ensures Overwritten(was, at, piece)[at + |piece|..] == was[at..][|piece|..]
  {
  }

  lemma StoreNext(was: string, at: nat, c: char)
    requires at < |was|
    ensures was[at := c][..at + 1] == was[..at] + [c]
    ensures was[at := c][at + 1..] == was[at..][1..]
  {
  }

  /** Writing the next piece behind what is written keeps the written part and the rest as they should be. */
  lemma StillWritten(was: string, now: string, total: string, original: string, size: nat, piece: string)
    requires size + |piece| <= |was| == |now| == |original| && size == |total|
    requires was[..size] == total[..size] && was[size..] == original[size..]
    requires now[..size + |piece|] == was[..size] + piece && now[size + |piece|..] == was[size..][|piece|..]
    ensures now[..size + |piece|] == (total + piece)[..size + |piece|]
    ensures now[size + |piece|..] == original[size + |piece|..]
  {
  }

  /** On the caller's memory `dest`, of which n characters may be used. While `direct` the buffer's memory
      is `dest` itself; `out` is how far the result pointer has moved. */
  class PointerBuffer {
    const dest: array<char>
    const data: array<char>
    const limit: nat
    var direct: bool
    var size: nat
    var capacity: nat
    var count: nat
    var out: nat
    ghost var total: string
    ghost var original: string

    ghost predicate Shaped()
      reads this, data, dest
    {
      && data != dest && data.Length == BUFFER_SIZE && limit <= dest.Length == |original|
      && capacity == (if direct then limit else BUFFER_SIZE)
      && size <= capacity
    }

    /** The first `n` characters have been written and the memory behind them is untouched. */
    ghost predicate Written(n: nat)
      reads this, dest
    {
      && n <= |total| && n <= dest.Length == |original|
      && dest[..n] == total[..n]
      && dest[n..] == original[n..]
    }

    ghost predicate Valid()
      reads this, data, dest
    {
      && Shaped()
      && count + size == |total|
      && (if direct then count == 0 && out == 0 && Written(size) else count >= limit && out == limit && Written(limit))
    }

    constructor (dest: array<char>, n: nat)
      requires n <= dest.Length
      ensures Valid() && fresh(data) && this.dest == dest && limit == n && total == "" && original == dest[..]
    {
      this.dest := dest;
      data := new char[BUFFER_SIZE];
      limit, direct, size, capacity, count, out := n, true, 0, n, 0, 0;
      total, original := "", dest[..];
    }

    method Flush()
      requires Valid()
      modifies this`direct, this`size, this`capacity, this`count, this`out
      ensures Shaped() && !direct && size == 0 && count == |total|
      ensures out == Min(limit, |total|) && Written(out)
    {
      var n := Fits(limit, count, size);
      count := count + size;
      if direct {
        out := out + n;
        direct, capacity := false, BUFFER_SIZE;
      }
      size := 0;
    }

    method TryReserve(wanted: nat)
      requires Valid() && wanted > size
      modifies this`direct, this`size, this`capacity, this`count, this`out
      ensures Valid() && size < capacity
    {
      if wanted > capacity {
        if size == capacity {
          Flush();
        }
      }
    }

    method Store(at: nat, c: char)
      requires Shaped() && at < capacity
      modifies dest, data
      ensures direct ==> dest[..] == old(dest[..])[at := c]
      ensures !direct ==> dest[..] == old(dest[..])
    {
      if direct {
        dest[at] := c;
      } else {
        data[at] := c;
      }
    }

    method PushBack(c: char)
      requires Valid()
      modifies this, dest, data
      ensures Valid() && total == old(total) + [c] && original == old(original)
    {
      TryReserve(size + 1);
      ghost var was := dest[..];
      Store(size, c);
      if direct {
        StoreNext(was, size, c);
        StillWritten(was, dest[..], total, original, size, [c]);
      } else {
        assert dest[..limit] == was[..limit] && dest[limit..] == was[limit..];
        TextGrows(total, [c], count, limit);
      }
      total := total + [c];
      size := size + 1;
    }

    method Append(text: string)
      requires Valid()
      modifies this, dest, data
      ensures Valid() && total == old(total) + text && original == old(original)
    {
      var begin := 0;
      while begin != |text|
        invariant 0 <= begin <= |text|
        invariant Valid() && total == old(total) + text[..begin] && original == old(original)
        decreases |text| - begin
      {
        var n := |text| - begin;
        TryReserve(size + n);
        var room := capacity - size;
        if room < n {
          n := room;
        }
        CopyPiece(text[begin..begin + n]);
        assert text[..begin + n] == text[..begin] + text[begin..begin + n];
        begin := begin + n;
      }
      assert text[..begin] == text;
    }

    method StorePiece(piece: string)
      requires Shaped() && size + |piece| <= capacity
      modifies dest, data
      ensures direct ==> size + |piece| <= dest.Length && dest[..] == Overwritten(old(dest[..]), size, piece)
      ensures !direct ==> dest[..] == old(dest[..])
    {
      hide Overwritten;
      ghost var was := dest[..];
      var i := 0;
      if direct {
        OverwriteNothing(was, size);
        assert piece[..0] == "";
      }
      while i < |piece|
        invariant 0 <= i <= |piece|
        invariant direct ==> size + |piece| <= |was| && dest[..] == Overwritten(was, size, piece[..i])
        invariant !direct ==> dest[..] == was
      {
        if direct {
          OverwriteNext(was, size, piece[..i], piece[i]);
          assert piece[..i] + [piece[i]] == piece[..i + 1];
        }
        Store(size + i, piece[i]);
        i := i + 1;
      }
      assert piece[..i] == piece;
    }

    method CopyPiece(piece: string)
      requires Valid() && size + |piece| <= capacity
      modifies this`size, this`total, dest, data
      ensures Valid() && total == old(total) + piece
    {
      ghost var was := dest[..];
      StorePiece(piece);
      if direct {
        OverwriteParts(was, size, piece);
        StillWritten(was, dest[..], total, original, size, piece);
      } else {
        assert dest[..limit] == was[..limit] && dest[limit..] == was[limit..];
        TextGrows(total, piece, count, limit);
      }
      total := total + piece;
      size := size + |piece|;
    }

    method Out() returns (end: nat, reported: nat)
      requires Valid()
      modifies this`direct, this`size, this`capacity, this`count, this`out
      ensures end == Min(limit, |total|) && Written(end) && reported == |total|
    {
      Flush();
      end, reported := out, count + size;
    }
  }

  /** Formatting into memory: exactly the first min(n, total) characters are written, everything behind them
      stays as it was, the returned pointer is right behind them and the whole length is reported. */
  method FormatToMemory(ops: seq<Op>, dest: array<char>, n: nat) returns (end: nat, reported: nat)
    requires n <= dest.Length
    modifies dest
    ensures reported == |Text(ops)| && end == Min(n, |Text(ops)|)
    ensures dest[..end] == Text(ops)[..end]
    ensures dest[end..] == old(dest[..])[end..]
  {
    var buffer := new PointerBuffer(dest, n);
    var i := 0;
    assert ops[..0] == [];
    while i < |ops|
      invariant 0 <= i <= |ops|
      invariant fresh(buffer) && fresh(buffer.data) && buffer.Valid() && buffer.limit == n
      invariant buffer.dest == dest && buffer.original == old(dest[..])
      invariant buffer.total == Text(ops[..i])
    {
      assert ops[..i + 1][..i] == ops[..i];
      match ops[i] {
        case PushBack(c) => buffer.PushBack(c);
        case Append(text) => buffer.Append(text);
      }
      i := i + 1;
    }
    assert ops[..i] == ops;
    end, reported := buffer.Out();
  }
}
