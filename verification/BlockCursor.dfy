/** The bidirectional cursor over one block. */
module BlockCursor {
  import opened Keys
  import opened Search
  import opened Block
  import Arith

  datatype Seek = First | Last | Backward(key: Key)

  // ---- the cached prefix ----

  /** `restart_shared_len`: a restart entry answers for its group. */
  function RestartSharedLen<T>(b: Block<T>, i: nat): nat
    requires b.interval > 0 && i < |b.entries|
  {
    if i % b.interval != 0 then b.entries[i].sharedLen
    else if i + 1 < |b.entries| then b.entries[i + 1].sharedLen
    else 0
  }

  /** `shared_key_prefix`. */
  function SharedKeyPrefix<T>(b: Block<T>, i: nat, len: nat): Key
    requires b.interval > 0 && i < |b.entries| && len <= |b.entries[GroupStart(i, b.interval)].key|
  {
    b.entries[GroupStart(i, b.interval)].key[..len]
  }

  lemma AfterRestart(i: nat, interval: nat)
    requires interval >= 2 && i % interval == 0
    ensures (i + 1) % interval == 1 && GroupStart(i + 1, interval) == i
  {
    Arith.DivModUnique(i + 1, interval, i / interval, 1);
  }

  lemma EntryFits<T>(kvs: seq<Pair<T>>, interval: nat, i: nat)
    requires interval > 0 && i < |kvs|
    ensures EntryAt(kvs, i, interval).sharedLen <= |EntryAt(kvs, GroupStart(i, interval), interval).key|
  {
    RestartIsFull(kvs, i, interval);
    SharedFits(kvs, i, interval);
  }

  /** With an interval of 1 no entry has a prefix. */
  lemma AllRestarts<T>(kvs: seq<Pair<T>>, i: nat)
    requires i < |kvs|
    ensures EntryAt(kvs, i, 1).sharedLen == 0
  {
    assert i % 1 == 0;
  }

  /** The prefix is never cut from a restart key that is too short. */
  lemma PrefixFits<T>(kvs: seq<Pair<T>>, interval: nat, i: nat)
    requires interval >= 1 && i < |kvs|
    ensures var b := New(kvs, interval);
            RestartSharedLen(b, i) <= |b.entries[GroupStart(i, interval)].key|
  {
    hide EntryAt;
    if interval == 1 {
      if i + 1 < |kvs| { AllRestarts(kvs, i + 1); }
    } else if i % interval != 0 {
      EntryFits(kvs, interval, i);
    } else if i + 1 < |kvs| {
      AfterRestart(i, interval);
      EntryFits(kvs, interval, i + 1);
    }
  }

  lemma NewSize<T>(kvs: seq<Pair<T>>, interval: nat)
    requires interval > 0
    ensures |New(kvs, interval).entries| == |kvs| && New(kvs, interval).interval == interval
  {
  }

  lemma ItemAt<T>(kvs: seq<Pair<T>>, interval: nat, i: nat)
    requires interval > 0 && i < |kvs|
    ensures |New(kvs, interval).entries| == |kvs| && New(kvs, interval).entries[i].item == kvs[i].item
  {
  }

  /** Prefix and suffix put a non-restart key back together. */
  lemma PrefixCompletes<T>(kvs: seq<Pair<T>>, interval: nat, i: nat)
    requires interval >= 1 && i < |kvs|
    ensures var b := New(kvs, interval);
            && RestartSharedLen(b, i) <= |b.entries[GroupStart(i, interval)].key|
            && (i % interval != 0 ==>
                  SharedKeyPrefix(b, i, RestartSharedLen(b, i)) + b.entries[i].key == kvs[i].key)
            && (i % interval == 0 ==> b.entries[i].key == kvs[i].key)
  {
    PrefixFits(kvs, interval, i);
    FullKeyRestores(kvs, interval, i);
  }

  lemma DivSmaller(x: nat, interval: nat)
    requires interval >= 2
    ensures x > 0 ==> x / interval < x
    ensures 1 / interval == 0 && 0 / interval == 0
  {
    Arith.DivModUnique(1, interval, 0, 1);
    Arith.DivModUnique(0, interval, 0, 0);
    var q := x / interval;
    assert x == interval * q + x % interval;
    assert interval * q >= 2 * q by {
      if interval > 2 { Arith.MulStep(q, 2, interval); }
    }
  }

  // ---- the cursor ----

  class BlockIter<T> {
    const block: Block<T>
    ghost const kvs: seq<Pair<T>>
    var offset: nat
    var bufSharedKey: Key

    /** The block compresses `kvs`; the offset is one above the position of the current entry. */
    ghost predicate Valid()
      reads this
    {
      && block.interval >= 1 && kvs != [] && SortedPairs(kvs) && block == New(kvs, block.interval)
      && offset <= |kvs| + 1
    }

    /** What repeated `try_next` still yields. */
    ghost function Rest(): seq<Pair<T>>
      reads this
    {
      if offset <= |kvs| then kvs[offset..] else []
    }

    constructor (block: Block<T>, ghost kvs: seq<Pair<T>>)
      requires block.interval >= 1 && kvs != [] && SortedPairs(kvs) && block == New(kvs, block.interval)
      ensures Valid() && this.kvs == kvs && this.block == block && offset == 0 && Rest() == kvs
    {
      PrefixFits(kvs, block.interval, 0);
      this.block, this.kvs, offset := block, kvs, 0;
      bufSharedKey := SharedKeyPrefix(block, 0, RestartSharedLen(block, 0));
    }

    predicate IsValid()
      reads this
    {
      0 < offset <= |block.entries|
    }

    /** `item`: the key is built on the cached prefix. */
    method Item() returns (r: Pair<T>)
      requires Valid() && IsValid()
      requires (offset - 1) % block.interval != 0 ==>
                 bufSharedKey + block.entries[offset - 1].key == kvs[offset - 1].key
      ensures r == kvs[offset - 1]
    {
      hide New, SortedPairs, GroupStart, SharedKeyPrefix, RestartSharedLen;
      NewSize(kvs, block.interval);
      PrefixCompletes(kvs, block.interval, offset - 1);
      ItemAt(kvs, block.interval, offset - 1);
      var e := block.entries[offset - 1];
      r := Pair(if (offset - 1) % block.interval != 0 then bufSharedKey + e.key else e.key, e.item);
    }

    /** `offset_move`. The test for a new group is made on the unsigned `oldOffset - 1 / interval`. It
        misses only the move from 0 to 1, whose entry is a restart and does not use the prefix; with an
        interval of 1 the move away from 0 takes 1 from 0, which is the fault. */
    method OffsetMove(to: nat, isSeek: bool) returns (r: Option<Pair<T>>, fault: bool)
      requires Valid() && to <= |kvs| + 1
      requires isSeek || to == offset + 1 || to + 1 == offset
      modifies this
      ensures fault <==> block.interval == 1 && old(offset) == 0 && 0 < to <= |kvs|
      ensures Valid() && offset == to
      ensures !fault ==> r == if 0 < to <= |kvs| && !isSeek then Some(kvs[to - 1]) else None
    {
      hide New, SortedPairs, GroupStart;
      NewSize(kvs, block.interval);
      var oldOffset := offset;
      offset, r, fault := to, None, false;
      if 0 < to < |block.entries| + 1 {
        var at := to - 1;
        PrefixCompletes(kvs, block.interval, at);
        GroupTest(oldOffset, at, block.interval);
        if oldOffset < 1 / block.interval {
          return None, true;
        }
        if oldOffset - 1 / block.interval != at / block.interval {
          bufSharedKey := SharedKeyPrefix(block, at, RestartSharedLen(block, at));
        }
        if !isSeek {
          var item := Item();
          r := Some(item);
        }
      }
    }

    /** Forward iteration yields the original pairs one by one. It fails only on the first entry of a
        block with an interval of 1. */
    method TryNext() returns (r: Option<Pair<T>>, fault: bool)
      requires Valid()
      modifies this
      ensures fault <==> block.interval == 1 && old(offset) == 0
      ensures Valid() && offset == if old(offset) <= |kvs| then old(offset) + 1 else old(offset)
      ensures !fault ==> r == if old(offset) < |kvs| then Some(kvs[old(offset)]) else None
    {
      NewSize(kvs, block.interval);
      if IsValid() || offset == 0 {
        r, fault := OffsetMove(offset + 1, false);
      } else {
        r, fault := None, false;
      }
    }

    /** Going back never fails. */
    method TryPrev() returns (r: Option<Pair<T>>)
      requires Valid()
      modifies this
      ensures Valid()
      ensures r == if old(offset) >= 2 then Some(kvs[old(offset) - 2]) else None
      ensures offset == if old(offset) > 0 then old(offset) - 1 else 0
    {
      NewSize(kvs, block.interval);
      if IsValid() || offset == |block.entries| + 1 {
        var fault;
        r, fault := OffsetMove(offset - 1, false);
      } else {
        r := None;
      }
    }

    /** A backward seek stops before the first key not below the probe; a probe above every key
        leaves the cursor where it was. With an interval of 1 it fails if it has to leave offset 0. */
    method Seek(seek: Seek) returns (fault: bool)
      requires Valid()
      modifies this
      ensures Valid()
      ensures fault <==>
              && block.interval == 1 && old(offset) == 0 && seek.Backward?
              && Lt(kvs[0].key, seek.key) && !Lt(kvs[|kvs| - 1].key, seek.key)
      ensures seek.First? ==> offset == 0
      ensures seek.Last? ==> offset == |kvs| + 1
      ensures seek.Backward? && Lt(kvs[|kvs| - 1].key, seek.key) ==> offset == old(offset)
      ensures seek.Backward? && !Lt(kvs[|kvs| - 1].key, seek.key) ==>
                && offset < |kvs| && Le(seek.key, kvs[offset].key)
                && forall i :: 0 <= i < offset ==> Lt(kvs[i].key, seek.key)
    {
      hide New;
      NewSize(kvs, block.interval);
      var r;
      match seek {
        case First =>
          r, fault := OffsetMove(0, true);
        case Last =>
          r, fault := OffsetMove(|block.entries| + 1, true);
        case Backward(key) =>
          SearchBlockCorrect(kvs, block.interval, key);
          var found := SearchBlock(block, key);
          assert PositionOf(kvs, key, found);
          fault := false;
          if found.Ok? || found.index < |block.entries| {
            r, fault := OffsetMove(found.index, true);
          }
      }
    }
  }

  /** What the group test amounts to: at an interval of 1 it underflows exactly from 0; otherwise a move
      by one to an entry that needs a prefix always takes the branch that cuts it. */
  lemma GroupTest(oldOffset: nat, at: nat, interval: nat)
    requires interval >= 1
    ensures oldOffset < 1 / interval <==> interval == 1 && oldOffset == 0
    ensures at % interval != 0 && (oldOffset == at || oldOffset == at + 2) && oldOffset >= 1 / interval ==>
              oldOffset - 1 / interval != at / interval
  {
    if interval >= 2 { DivSmaller(at, interval); }
  }

  /** The first `try_next` on any block fails exactly at an interval of 1. */
  method FirstNext<T>(kvs: seq<Pair<T>>, interval: nat) returns (r: Option<Pair<T>>, fault: bool)
    requires interval >= 1 && kvs != [] && SortedPairs(kvs)
    ensures fault <==> interval == 1
    ensures !fault ==> r == Some(kvs[0])
  {
    hide New;
    NewSize(kvs, interval);
    var it := new BlockIter(New(kvs, interval), kvs);
    r, fault := it.TryNext();
  }

  /** `try_prev` undoes `try_next` unless the cursor had already run off the end. */
  method NextThenPrev<T>(it: BlockIter<T>) returns (next: Option<Pair<T>>, prev: Option<Pair<T>>, fault: bool)
    requires it.Valid()
    modifies it
    ensures fault <==> it.block.interval == 1 && old(it.offset) == 0
    ensures !fault ==>
              && it.Valid() && it.Rest() == old(it.Rest())
              && (it.offset == old(it.offset) <==> old(it.offset) <= |it.kvs|)
              && next == (if old(it.Rest()) == [] then None else Some(old(it.Rest())[0]))
              && prev == (if 0 < it.offset then Some(it.kvs[it.offset - 1]) else None)
  {
    prev := None;
    next, fault := it.TryNext();
    if !fault {
      prev := it.TryPrev();
    }
  }

  /** A full pass, whatever prefix was cached before it, rebuilds the original pairs; it fails exactly
      at an interval of 1. */
  method Collect<T>(it: BlockIter<T>) returns (all: seq<Pair<T>>, fault: bool)
    requires it.Valid()
    modifies it
    ensures fault <==> it.block.interval == 1
    ensures !fault ==> it.Valid() && all == it.kvs
  {
    var r;
    fault := it.Seek(First);
    all := [];
    r, fault := it.TryNext();
    while !fault && r.Some?
      invariant it.Valid() && (fault <==> it.block.interval == 1)
      invariant !fault && r.Some? ==> 0 < it.offset <= |it.kvs| && r.value == it.kvs[it.offset - 1]
      invariant !fault && r.None? ==> it.offset == |it.kvs| + 1
      invariant it.offset > 0 && (!fault ==> all == it.kvs[..it.offset - 1])
      decreases |it.kvs| + 1 - it.offset
    {
      all := all + [r.value];
      r, fault := it.TryNext();
    }
  }
}
