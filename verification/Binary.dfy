/** Byte buffers, after lib/BinaryNode.cpp. */
module BinarySpec {

  newtype byte = x: int | 0 <= x < 256

  function Min(a: int, b: int): int {
    if a < b then a else b
  }

  function Max(a: int, b: int): int {
    if a < b then b else a
  }

  /** Where an offset starts: from the end if negative, and always inside the buffer. */
  function Start(len: nat, offset: int): (a: nat)
    ensures a <= len
  {
    if offset < 0 then Max(0, len + offset) else Min(offset, len)
  }

  /** Where the range given by an offset and a length ends: a negative length leaves that many bytes. */
  function End(len: nat, offset: int, length: int): (b: nat)
    ensures Start(len, offset) <= b <= len
  {
    var a := Start(len, offset);
    if length < 0 then Max(a, len + length) else Min(a + length, len)
  }

  function Extracted(s: seq<byte>, offset: int, length: int): seq<byte> {
    s[Start(|s|, offset)..End(|s|, offset, length)]
  }

  function Spliced(s: seq<byte>, offset: int, length: int, data: seq<byte>): seq<byte> {
    s[..Start(|s|, offset)] + data + s[End(|s|, offset, length)..]
  }

  /** The range in the buffer, by position: `x`, `y` and `z` are the bytes before, in and after it.  Offsets count
      from the start or, if negative, from the end; lengths count on from there or, if negative, back from the
      end. */
  lemma RangeByPosition(x: seq<byte>, y: seq<byte>, z: seq<byte>)
    ensures Extracted(x + y + z, |x|, |y|) == y
    ensures y + z != [] ==> Extracted(x + y + z, -|y + z|, |y|) == y
    ensures z != [] ==> Extracted(x + y + z, |x|, -|z|) == y
    ensures z != [] ==> Extracted(x + y + z, -|y + z|, -|z|) == y
  {
    var s := x + y + z;
    assert |y + z| == |y| + |z|;
    assert s[|x|..|x| + |y|] == y;
  }

  /** Offsets and lengths that point outside stop at the ends of the buffer. */
  lemma RangeOutside(s: seq<byte>, offset: int, length: int)
    ensures offset >= |s| ==> Extracted(s, offset, length) == []
    ensures offset <= -|s| ==> Extracted(s, offset, length) == Extracted(s, 0, length)
    ensures 0 <= offset <= |s| && offset + length >= |s| ==> Extracted(s, offset, length) == s[offset..]
    ensures -|s| <= offset < 0 && offset + length >= 0 ==> Extracted(s, offset, length) == s[|s| + offset..]
    ensures 0 <= offset <= |s| && length < 0 && offset - length >= |s| ==> Extracted(s, offset, length) == []
  {
  }

  /** Splicing the extracted bytes back over the inserted ones restores the buffer, and extracts what had
      been inserted. */
  lemma SpliceBack(s: seq<byte>, offset: int, length: int, data: seq<byte>)
    ensures var s' := Spliced(s, offset, length, data);
      var a := Start(|s|, offset);
      && Spliced(s', a, |data|, Extracted(s, offset, length)) == s
      && Extracted(s', a, |data|) == data
  {
    var a, b := Start(|s|, offset), End(|s|, offset, length);
    var s' := Spliced(s, offset, length, data);
    assert s'[..a] == s[..a] && s'[a + |data|..] == s[b..];
    assert s == s[..a] + s[a..b] + s[b..];
  }

  /** Nothing is lost: what stays, what goes and what comes add up. */
  lemma SpliceConserves(s: seq<byte>, offset: int, length: int, data: seq<byte>)
    ensures multiset(Spliced(s, offset, length, data)) + multiset(Extracted(s, offset, length)) ==
      multiset(s) + multiset(data)
  {
    var a, b := Start(|s|, offset), End(|s|, offset, length);
    assert s == s[..a] + s[a..b] + s[b..];
    calc {
      multiset(s);
      multiset(s[..a] + s[a..b]) + multiset(s[b..]);
      multiset(s[..a]) + multiset(s[a..b]) + multiset(s[b..]);
    }
  }

  /** A splice at a range is two splices: first remove, then insert. */
  lemma SpliceInTwoSteps(s: seq<byte>, offset: int, length: int, data: seq<byte>)
    ensures Spliced(Spliced(s, offset, length, []), Start(|s|, offset), 0, data) == Spliced(s, offset, length, data)
  {
    var a, b := Start(|s|, offset), End(|s|, offset, length);
    var s1 := Spliced(s, offset, length, []);
    assert s1[..a] == s[..a] && s1[a..] == s[b..];
  }
}

module Binary {
  import opened BinarySpec

  /** The range in terms of the numbers that checkOffset() returns. */
  lemma SpliceAt(s: seq<byte>, offset: int, length: int, data: seq<byte>, o: nat, n: nat)
    requires o == Start(|s|, offset) && Min(o + n, |s|) == End(|s|, offset, length)
    ensures var end := if n > |s| - o then |s| else o + n;
      && o <= end <= |s|
      && Spliced(s, offset, length, data) == s[..o] + data + s[end..]
      && Extracted(s, offset, length) == s[o..end]
  {
  }

  /** A buffer put together byte by byte. */
  lemma Assembled(r: seq<byte>, s: seq<byte>, o: nat, data: seq<byte>, end: nat)
    requires o <= end <= |s| && |r| == o + |data| + |s| - end
    requires forall i :: 0 <= i < o ==> r[i] == s[i]
    requires forall i :: o <= i < o + |data| ==> r[i] == data[i - o]
    requires forall i :: o + |data| <= i < |r| ==> r[i] == s[i - o - |data| + end]
    ensures r == s[..o] + data + s[end..]
  {
    assert r[..o] == s[..o] && r[o..o + |data|] == data && r[o + |data|..] == s[end..];
  }

  class BinaryNode {
    var ptr: array<byte>
    var len: nat

    ghost predicate Valid()
      reads this
    {
      len <= ptr.Length
    }

    ghost function Bytes(): seq<byte>
      requires Valid()
      reads this, ptr
    {
      ptr[..len]
    }

    constructor ()
      ensures Valid() && Bytes() == [] && fresh(ptr)
    {
      ptr := new byte[0];
      len := 0;
    }

    /** realloc(): keeps what fits. */
    method Realloc(size: nat)
      requires Valid() && len <= size
      modifies this`ptr
      ensures Valid() && Bytes() == old(Bytes()) && ptr.Length == size && fresh(ptr)
      ensures forall i :: 0 <= i < len ==> ptr[i] == old(ptr[i])
    {
      var p := new byte[size];
      forall i | 0 <= i < len {
        p[i] := ptr[i];
      }
      ptr := p;
    }

    /** memmove() within the buffer. */
    method Move(dst: nat, src: nat, n: nat)
      requires dst + n <= ptr.Length && src + n <= ptr.Length
      modifies ptr
      ensures forall i :: 0 <= i < ptr.Length ==>
        ptr[i] == if dst <= i < dst + n then old(ptr[src + (i - dst)]) else old(ptr[i])
    {
      forall i | 0 <= i < n {
        ptr[dst + i] := ptr[src + i];
      }
    }

    /** memcpy() into the buffer. */
    method Copy(dst: nat, data: seq<byte>)
      requires dst + |data| <= ptr.Length
      modifies ptr
      ensures forall i :: 0 <= i < ptr.Length ==>
        ptr[i] == if dst <= i < dst + |data| then data[i - dst] else old(ptr[i])
    {
      forall i | 0 <= i < |data| {
        ptr[dst + i] := data[i];
      }
    }

    method Append(data: seq<byte>)
      requires Valid()
      modifies this
      ensures Valid() && Bytes() == old(Bytes()) + data && fresh(ptr)
    {
      Realloc(len + |data|);
      Copy(len, data);
      len := len + |data|;
    }

    method Prepend(data: seq<byte>)
      requires Valid()
      modifies this
      ensures Valid() && Bytes() == data + old(Bytes()) && fresh(ptr)
    {
      ghost var s' := data + Bytes();
      Realloc(len + |data|);
      Move(|data|, 0, len);
      Copy(0, data);
      len := len + |data|;
      assert forall i :: 0 <= i < len ==> ptr[i] == s'[i];
    }

    method CheckOffset(offset: int) returns (o: nat)
      ensures o == Start(len, offset)
    {
      if offset < 0 {
        o := if len + offset < 0 then 0 else len + offset;
      } else {
        o := if offset > len then len else offset;
      }
    }

    /** checkOffset() with a length; the length is not yet cut at the end of the buffer. */
    method CheckRange(offset: int, num: int) returns (o: nat, n: nat)
      ensures o == Start(len, offset) && Min(o + n, len) == End(len, offset, num)
    {
      o := CheckOffset(offset);
      n := if num >= 0 then num else if len + num - o < 0 then 0 else len + num - o;
    }

    /** splice() without replacement. */
    method Remove(offset: int, length: int, extract: BinaryNode?)
      requires Valid() && extract != this
      requires extract != null ==> extract.Valid() && extract.ptr != ptr
      modifies this`len, ptr, extract
      ensures Valid() && ptr == old(ptr)
      ensures Bytes() == Spliced(old(Bytes()), offset, length, [])
      ensures extract != null ==>
        extract.Valid() && extract.Bytes() == old(extract.Bytes()) + Extracted(old(Bytes()), offset, length)
    {
      ghost var s := Bytes();
      var o, n := CheckRange(offset, length);
      SpliceAt(s, offset, length, [], o, n);
      hide Spliced, Extracted, Start, End;
      if o == len || n == 0 {
        assert s[..o] + [] + s[o..] == s;
        return;
      }
      var end;
      if n > len - o {
        end := len;
        n := len - o;
      } else {
        end := o + n;
      }
      if n != 0 {
        CopyTo(extract, o, end);
      }
      CloseGap(o, end);
      assert s[..o] + [] + s[end..] == s[..o] + s[end..];
    }

    /** The bytes of a range, appended to the other buffer if there is one. */
    method CopyTo(extract: BinaryNode?, o: nat, end: nat)
      requires Valid() && o <= end <= len && extract != this
      requires extract != null ==> extract.Valid()
      modifies extract
      ensures extract != null ==> extract.Valid() && extract.Bytes() == old(extract.Bytes()) + Bytes()[o..end]
      ensures extract != null ==> fresh(extract.ptr)
    {
      if extract != null {
        assert ptr[o..end] == Bytes()[o..end];
        extract.Append(ptr[o..end]);
      }
    }

    /** The part of splice() that moves down the bytes after the range. */
    method CloseGap(o: nat, end: nat)
      requires Valid() && o <= end <= len
      modifies this`len, ptr
      ensures Valid() && Bytes() == old(Bytes()[..o]) + old(Bytes()[end..])
    {
      ghost var s := Bytes();
      if end != len {
        Move(o, end, len - end);
      }
      len := len - (end - o);
      Assembled(Bytes(), s, o, [], end);
      assert s[..o] + [] == s[..o];
    }

    /** splice() with replacement. */
    method Splice(offset: int, length: int, data: seq<byte>, extract: BinaryNode?)
      requires Valid() && extract != this
      requires extract != null ==> extract.Valid() && extract.ptr != ptr
      modifies this, ptr, extract
      ensures Valid() && Bytes() == Spliced(old(Bytes()), offset, length, data)
      ensures ptr == old(ptr) || fresh(ptr)
      ensures extract != null ==>
        extract.Valid() && extract.Bytes() == old(extract.Bytes()) + Extracted(old(Bytes()), offset, length)
    {
      ghost var s := Bytes();
      var o, n := CheckRange(offset, length);
      SpliceAt(s, offset, length, data, o, n);
      hide Spliced, Extracted, Start, End;
      if o == len {
        if data == [] {
          assert s[..o] + [] + s[o..] == s;
          return;
        }
        n := 0;
      }
      var end;
      if n > len - o {
        end := len;
        n := len - o;
      } else {
        end := o + n;
      }
      if n != 0 {
        CopyTo(extract, o, end);
      }
      Replace(o, n, data);
    }

    /** The part of splice() that moves bytes: the `n` bytes from `o` on make room for `data`. */
    method Replace(o: nat, n: nat, data: seq<byte>)
      requires Valid() && o + n <= len
      modifies this, ptr
      ensures Valid() && Bytes() == old(Bytes()[..o]) + data + old(Bytes()[o + n..])
      ensures ptr == old(ptr) || fresh(ptr)
    {
      ghost var s := Bytes();
      MakeRoom(o, n, |data|);
      var size := len - n + |data|;
      assert forall i :: o + |data| <= i < size ==> ptr[i] == s[i - |data| + n];
      Copy(o, data);
      assert forall i :: o + |data| <= i < size ==> ptr[i] == s[i - |data| + n];
      len := size;
      Assembled(Bytes(), s, o, data, o + n);
    }

    /** Moves the bytes after the range so that it has the given size. */
    method MakeRoom(o: nat, n: nat, size: nat)
      requires Valid() && o + n <= len
      modifies this`ptr, ptr
      ensures ptr == old(ptr) || fresh(ptr)
      ensures len - n + size <= ptr.Length
      ensures forall i :: 0 <= i < o ==> ptr[i] == old(ptr[i])
      ensures forall i :: o + size <= i < len - n + size ==> ptr[i] == old(ptr[i - size + n])
    {
      var end := o + n;
      if size > n {
        Realloc(len - n + size);
        if end != len {
          Move(end - n + size, end, len - end);
        }
      } else if n > size {
        Move(o + size, end, len - end);
      }
    }

    /** substr() to the end of the buffer. */
    method Substr(b: BinaryNode, offset: int) returns (ok: bool)
      requires Valid() && b != this && b.Valid()
      modifies b
      ensures b.Valid() && b.Bytes() == old(b.Bytes()) + Extracted(Bytes(), offset, len)
      ensures ok <==> Start(len, offset) < len
    {
      var o := CheckOffset(offset);
      if o == len {
        return false;
      }
      assert ptr[o..len] == Bytes()[o..len];
      b.Append(ptr[o..len]);
      ok := true;
    }

    /** substr() of a range: returns the bytes that splice() would extract. */
    method SubstrRange(b: BinaryNode, offset: int, length: int) returns (ok: bool)
      requires Valid() && b != this && b.Valid()
      modifies b
      ensures b.Valid() && b.Bytes() == old(b.Bytes()) + Extracted(Bytes(), offset, length)
      ensures ok <==> Start(len, offset) < len
    {
      var o, n := CheckRange(offset, length);
      if o == len {
        return false;
      }
      if n > len - o {
        n := len - o;
      }
      assert ptr[o..o + n] == Bytes()[o..o + n];
      b.Append(ptr[o..o + n]);
      ok := true;
    }
  }

  /** Undoing a splice by splicing back what it extracted leaves the buffer as it was. */
  method SpliceAndUndo(b: BinaryNode, offset: int, length: int, data: seq<byte>)
    requires b.Valid()
    modifies b, b.ptr
    ensures b.Valid() && b.Bytes() == old(b.Bytes())
  {
    hide Spliced, Extracted, Start, End;
    var extract := new BinaryNode();
    ghost var s := b.Bytes();
    SpliceBack(b.Bytes(), offset, length, data);
    var start := b.CheckOffset(offset);
    b.Splice(offset, length, data, extract);
    assert extract.Bytes() == Extracted(s, offset, length);
    b.Splice(start, |data|, extract.ptr[..extract.len], null);
  }
}
