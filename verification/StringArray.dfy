/** The growing arrays of file names built by athena/bin/delete/pattern.c. */
module StringArray {

  class Strings {
    var block: seq<string>
    var num: nat

    /** The allocated block has room for at least the `num` names in use. */
    ghost predicate Valid()
      reads this
    {
      num <= |block|
    }

    ghost function Names(): seq<string>
      requires Valid()
      reads this
    {
      block[..num]
    }

    constructor ()
      ensures Valid() && Names() == []
    {
      block, num := [], 0;
    }

    /** add_str: writes one name behind those in use, doubling the block when it is full. */
    method Store(s: string)
      requires Valid()
      modifies this`block
      ensures Valid() && num < |block| && block[num] == s && Names() == old(Names())
    {
      if |block| == 0 {
        block := [s];
      } else {
        if num == |block| {
          block := block + seq(|block|, _ => "");
        }
        block := block[num := s];
      }
    }

    /** add_str followed by counting the name. */
    method Add(s: string)
      requires Valid()
      modifies this
      ensures Valid() && Names() == old(Names()) + [s]
    {
      Store(s);
      num := num + 1;
    }

    /** add_arrays: appends all names of another array. */
    method AddAll(other: Strings)
      requires Valid() && other.Valid() && other != this
      modifies this
      ensures Valid() && Names() == old(Names()) + other.Names()
    {
      if |block| == 0 {
        block, num := other.block[..other.num], other.num;
        return;
      }
      var size := |block|;
      while size < num + other.num
        invariant size >= |block| > 0
        decreases num + other.num - size
      {
        size := size * 2;
      }
      block := block + seq(size - |block|, _ => "");
      ghost var before := Names();
      for k := num to num + other.num
        invariant num == old(num) && |block| == size && block[..k] == before + other.block[..k - num]
      {
        block := block[k := other.block[k - num]];
      }
      num := num + other.num;
    }
  }
}
