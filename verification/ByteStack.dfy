/** The byte stack of the delete suite (athena/bin/delete/stack.c) and the two string macros
    that the searches of athena/bin/delete/pattern.c build on it. */
module ByteStack {

  const STACK_INC := 25
  const INT_SIZE := 4
  const PTR_SIZE := 8

  /** One byte of memory: a character, or byte number `index` of an integer or a pointer. */
  datatype Cell = Byte(c: char) | Part(value: nat, index: nat)

  datatype Status = Ok | StackEmpty

  function Bytes(s: string): (r: seq<Cell>)
    ensures |r| == |s|
  {
    seq(|s|, i requires 0 <= i < |s| => Byte(s[i]))
  }

  /** The memory image of a number that takes `width` bytes. */
  function Image(n: nat, width: nat): (r: seq<Cell>)
    ensures |r| == width
  {
    seq(width, (i: nat) => Part(n, i))
  }

  function TextOf(cells: seq<Cell>): (s: string)
    ensures |s| == |cells|
  {
    seq(|cells|, i requires 0 <= i < |cells| => if cells[i].Byte? then cells[i].c else '\0')
  }

  lemma TextOfBytes(s: string)
    ensures TextOf(Bytes(s)) == s
  {
  }

  /** What string_push leaves on the stack: the characters, then their number. */
  function Pushed(s: string): (r: seq<Cell>)
    ensures |r| == |s| + INT_SIZE
  {
    Bytes(s) + Image(|s|, INT_SIZE)
  }

  class Stack {
    var block: seq<Cell>
    var size: nat
    var count: nat

    /** The block grows and shrinks in steps and never holds a spare step. */
    ghost predicate Valid()
      reads this
    {
      |block| == size && size % STACK_INC == 0 && count <= size < count + STACK_INC
    }

    ghost function Contents(): seq<Cell>
      requires Valid()
      reads this
    {
      block[..count]
    }

    constructor ()
      ensures Valid() && Contents() == []
    {
      block, size, count := [], 0, 0;
    }

    /** dostack(STACK_PUSH). */
    method Push(data: seq<Cell>)
      requires Valid()
      modifies this
      ensures Valid() && Contents() == old(Contents()) + data
    {
      if |data| == 0 {
        return;
      }
      if size - count < |data| {
        ghost var before := size;
        size := size + STACK_INC;
        while size - count < |data|
          invariant size % STACK_INC == 0 && before < size
          invariant size - STACK_INC < count + |data|
          invariant count == old(count) && block == old(block)
          decreases count + |data| - size
        {
          size := size + STACK_INC;
        }
        block := block + seq(size - |block|, _ => Byte('\0'));
      }
      block := block[..count] + data + block[count + |data|..];
      count := count + |data|;
    }

    /** dostack(STACK_POP); an empty stack is reported, anything else must hold enough bytes. */
    method Pop(bytes: nat) returns (status: Status, data: seq<Cell>)
      requires Valid() && (count == 0 || bytes <= count)
      modifies this
      ensures Valid()
      ensures status == StackEmpty <==> old(count) == 0 && bytes > 0
      ensures status == Ok ==> |data| == bytes && old(Contents()) == Contents() + data
      ensures status == StackEmpty ==> Contents() == old(Contents())
    {
      data := [];
      if bytes == 0 {
        return Ok, [];
      }
      if count == 0 {
        return StackEmpty, [];
      }
      count := count - bytes;
      data := block[count..count + bytes];
      var newblocks := count / STACK_INC + if count % STACK_INC != 0 then 1 else 0;
      var newsize := newblocks * STACK_INC;
      if newsize < size {
        size := newsize;
        block := block[..size];
      }
      status := Ok;
    }

    /** string_push. */
    method StringPush(s: string)
      requires Valid()
      modifies this
      ensures Valid() && Contents() == old(Contents()) + Pushed(s)
    {
      Push(Bytes(s));
      Push(Image(|s|, INT_SIZE));
    }

    /** string_pop undoes string_push, or reports that the stack is empty. */
    method StringPop(ghost below: seq<Cell>, ghost s: string) returns (status: Status, r: string)
      requires Valid()
      requires Contents() == below + Pushed(s) || Contents() == []
      modifies this
      ensures Valid()
      ensures status == StackEmpty <==> old(Contents()) == []
      ensures status == Ok ==> r == s && Contents() == below
      ensures status == StackEmpty ==> Contents() == []
    {
      r := "";
      assert Contents() != [] ==> |Contents()| == |below| + |s| + INT_SIZE;
      var data;
      status, data := Pop(INT_SIZE);
      if status == Ok {
        assert data == (below + Bytes(s) + data)[|below| + |s|..];
        assert old(Contents()) == below + Bytes(s) + Image(|s|, INT_SIZE);
        assert data == Image(|s|, INT_SIZE) && Contents() == below + Bytes(s) by {
          assert old(Contents())[|below| + |s|..] == Image(|s|, INT_SIZE);
          assert old(Contents())[..|below| + |s|] == below + Bytes(s);
        }
        var strsize := Number(data);
        status, data := Pop(strsize);
        if strsize > 0 {
          assert (below + Bytes(s))[|below|..] == Bytes(s) && (below + Bytes(s))[..|below|] == below;
        }
        TextOfBytes(s);
        r := TextOf(data);
      }
    }

    method PushPointer(p: nat)
      requires Valid()
      modifies this
      ensures Valid() && Contents() == old(Contents()) + Image(p, PTR_SIZE)
    {
      Push(Image(p, PTR_SIZE));
    }

    method PopPointer(ghost below: seq<Cell>, ghost p: nat) returns (r: nat)
      requires Valid() && Contents() == below + Image(p, PTR_SIZE)
      modifies this
      ensures Valid() && r == p && Contents() == below
    {
      var status, data := Pop(PTR_SIZE);
      assert old(Contents())[|below|..] == Image(p, PTR_SIZE) && old(Contents())[..|below|] == below;
      r := Number(data);
    }
  }

  function Number(cells: seq<Cell>): (n: nat) {
    if cells != [] && cells[0].Part? then cells[0].value else 0
  }
}
