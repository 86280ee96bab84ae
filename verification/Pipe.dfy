/**
  The ring of kernel/pipe.c, with its 32-bit counters.  A call holds pi->lock from
  its start, or from its return from sleep, to its next sleep or its end; each
  method here is such a section, and between sections other readers and writers
  run theirs.  `written` and `consumed` are all bytes ever stored and ever taken
  out, in order.
 */
module Pipe {
  import opened Base

  const PIPESIZE: nat := 512

  datatype Outcome = Sleeps | Returns(n: int)

  /** The 32-bit counters tell how far apart the true ones are. */
  lemma {:induction false} Wrap(a: nat, b: nat)
    requires b <= a <= b + PIPESIZE
    ensures a % UINT == b % UINT <==> a == b
    ensures a % UINT == (b % UINT + PIPESIZE) % UINT <==> a == b + PIPESIZE
  {
    WrapBy(UINT, b, a - b);
    WrapBy(UINT, b % UINT, PIPESIZE);
  }

  /** Different positions in the ring have different places. */
  lemma {:induction false} Places(i: nat, j: nat)
    requires i < j < i + PIPESIZE
    ensures i % PIPESIZE != j % PIPESIZE
  {
  }

  class Ring<T> {
    var data: seq<T>
    var nread: nat
    var nwrite: nat
    var readopen: bool
    var writeopen: bool
    ghost var written: seq<T>
    ghost var consumed: seq<T>

    /** What has been consumed is a prefix of what has been written, and the rest is in the ring. */
    ghost predicate Valid()
      reads this
    {
      && |data| == PIPESIZE && |consumed| <= |written| <= |consumed| + PIPESIZE
      && nread == |consumed| % UINT && nwrite == |written| % UINT
      && consumed == written[..|consumed|]
      && forall k :: |consumed| <= k < |written| ==> data[k % PIPESIZE] == written[k]
    }

    /** pipealloc */
    constructor (fill: seq<T>)
      requires |fill| == PIPESIZE
      ensures Valid() && written == [] && consumed == [] && readopen && writeopen
    {
      data, nread, nwrite, readopen, writeopen := fill, 0, 0, true, true;
      written, consumed := [], [];
    }

    /** One byte goes into the ring, at its place by nwrite. */
    method Store(ch: T)
      requires Valid() && |written| < |consumed| + PIPESIZE
      modifies this`data, this`nwrite, this`written
      ensures Valid() && written == old(written) + [ch]
    {
      WrapNext(UINT, |written|);
      WrapPlace(PIPESIZE, UINT / PIPESIZE, |written|);
      var at := nwrite % PIPESIZE;
      data := data[at := ch];
      nwrite := (nwrite + 1) % UINT;
      forall k | |consumed| <= k < |written| ensures data[k % PIPESIZE] == written[k] {
        Places(k, |written|);
      }
      written := written + [ch];
    }

    /** One byte comes out of the ring, from its place by nread. */
    method Take() returns (ch: T)
      requires Valid() && |consumed| < |written|
      modifies this`nread, this`consumed
      ensures Valid() && consumed == old(consumed) + [ch]
    {
      WrapNext(UINT, |consumed|);
      WrapPlace(PIPESIZE, UINT / PIPESIZE, |consumed|);
      ch := data[nread % PIPESIZE];
      nread := (nread + 1) % UINT;
      assert written[..|consumed| + 1] == written[..|consumed|] + [written[|consumed|]];
      consumed := consumed + [ch];
    }

    /** nwrite is a whole ring ahead of nread. */
    method IsFull() returns (full: bool)
      requires Valid()
      ensures full <==> |written| == |consumed| + PIPESIZE
    {
      Wrap(|written|, |consumed|);
      full := nwrite == (nread + PIPESIZE) % UINT;
    }

    method IsEmpty() returns (empty: bool)
      requires Valid()
      ensures empty <==> |written| == |consumed|
    {
      Wrap(|written|, |consumed|);
      empty := nread == nwrite;
    }

    /** A section of pipewrite with i bytes of src done: it stores bytes in order until the ring is full, copyin
        fails at byte `bad`, or all are stored.  killed says yes from byte `dead` on: once set it stays. */
    method WriteSection(src: seq<T>, i: nat, bad: nat, dead: nat) returns (out: Outcome, i': nat)
      requires Valid() && i <= |src|
      modifies this`data, this`nwrite, this`written
      ensures Valid() && i <= i' <= |src| && written == old(written) + src[i..i']
      ensures i' > i ==> readopen && i' <= dead && !(i <= bad < i')
      ensures out == Returns(-1) <==> i' < |src| && (!readopen || i' >= dead)
      ensures out == Sleeps <==> i' < |src| && readopen && i' < dead && |written| == |consumed| + PIPESIZE
      ensures out.Returns? && out.n != -1 ==> out.n == i' && (i' == |src| || i' == bad)
    {
      i' := i;
      while i' < |src|
        invariant i <= i' <= |src| && Valid() && written == old(written) + src[i..i']
        invariant i' > i ==> readopen && i' <= dead && !(i <= bad < i')
        decreases |src| - i'
      {
        if !readopen || i' >= dead {
          return Returns(-1), i';
        }
        var full := IsFull();
        if full {
          return Sleeps, i';
        } else {
          if i' == bad {
            break;
          }
          Store(src[i']);
          assert src[i..i' + 1] == src[i..i'] + [src[i']];
          i' := i' + 1;
        }
      }
      out := Returns(i');
    }

    /** A section of piperead: it sleeps while the ring is empty and a writer remains, and otherwise takes bytes in
        order until n are taken, none is left, or copyout fails after taking byte `bad`. */
    method ReadSection(n: nat, bad: nat, killed: bool) returns (out: Outcome, got: seq<T>)
      requires Valid()
      modifies this`nread, this`consumed
      ensures Valid() && consumed == old(consumed) + got
      ensures out == Sleeps <==> |written| == |old(consumed)| && writeopen && !killed
      ensures out == Sleeps ==> got == []
      ensures out == Returns(-1) <==> |written| == |old(consumed)| && writeopen && killed
      ensures out.Returns? && out.n >= 0 ==>
                (out.n == |got| <= n && (|got| == n || |written| == |consumed|)) || (out.n == bad && |got| == bad + 1)
    {
      got := [];
      var empty := IsEmpty();
      if empty && writeopen {
        if killed {
          return Returns(-1), [];
        }
        return Sleeps, [];
      }
      var i := 0;
      while i < n
        invariant Valid() && i == |got| <= n && consumed == old(consumed) + got
        invariant |written| == |old(consumed)| ==> !writeopen
        decreases n - i
      {
        empty := IsEmpty();
        if empty {
          break;
        }
        var ch := Take();
        got := got + [ch];
        if i == bad {
          return Returns(i), got;
        }
        i := i + 1;
      }
      out := Returns(i);
    }

    method Close(writable: bool) returns (last: bool)
      requires Valid()
      modifies this`readopen, this`writeopen
      ensures Valid() && (last <==> !readopen && !writeopen)
      ensures writable ==> !writeopen && readopen == old(readopen)
      ensures !writable ==> !readopen && writeopen == old(writeopen)
    {
      if writable {
        writeopen := false;
      } else {
        readopen := false;
      }
      last := !readopen && !writeopen;
    }
  }
}
