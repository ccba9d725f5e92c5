/** A single-value observable slot, as an Android `MutableLiveData` is used
    for events: it holds no value until the first write, and every write
    replaces whatever the slot held, whether or not an observer has seen it
    yet (last write wins; nothing is queued). */
module Slots {

  datatype Option<T> = None | Some(value: T)

  /** The slot after one step: `w` is the value the step writes, if any. */
  function Overwrite<T>(slot: Option<T>, w: Option<T>): Option<T>
  {
    if w.Some? then w else slot
  }

  /** The slot after the steps `es` are applied in order, starting from
      `slot`; `write(e)` is what step `e` writes into this slot, if anything. */
  function SlotAfter<E, T>(slot: Option<T>, es: seq<E>, write: E -> Option<T>): Option<T>
    decreases |es|
  {
    if es == [] then slot else SlotAfter(Overwrite(slot, write(es[0])), es[1..], write)
  }

  /** One more step acts on the slot as it stood after the earlier ones. */
  lemma {:induction false} SlotAfterAppend<E, T>(slot: Option<T>, es: seq<E>, e: E, write: E -> Option<T>)
    ensures SlotAfter(slot, es + [e], write) == Overwrite(SlotAfter(slot, es, write), write(e))
    decreases |es|
  {
    if es == [] {
      assert es + [e] == [e];
    } else {
      assert (es + [e])[1..] == es[1..] + [e];
      SlotAfterAppend(Overwrite(slot, write(es[0])), es[1..], e, write);
    }
  }

  /** Steps that do not write leave the slot as it was. */
  lemma {:induction false} UnwrittenSlotKeepsValue<E, T>(slot: Option<T>, es: seq<E>, write: E -> Option<T>)
    requires forall j :: 0 <= j < |es| ==> write(es[j]).None?
    ensures SlotAfter(slot, es, write) == slot
    decreases |es|
  {
    if es != [] {
      assert write(es[0]).None?;
      UnwrittenSlotKeepsValue(slot, es[1..], write);
    }
  }

  /** Last write wins: the slot holds exactly what the latest writing step
      wrote, whatever was written before it. */
  lemma {:induction false} LastWriteWins<E, T>(slot: Option<T>, es: seq<E>, write: E -> Option<T>, k: nat)
    requires k < |es| && write(es[k]).Some?
    requires forall j :: k < j < |es| ==> write(es[j]).None?
    ensures SlotAfter(slot, es, write) == write(es[k])
    decreases k
  {
    if k == 0 {
      UnwrittenSlotKeepsValue(write(es[0]), es[1..], write);
    } else {
      LastWriteWins(Overwrite(slot, write(es[0])), es[1..], write, k - 1);
    }
  }

  /** A slot that started empty and now holds a value was written: the
      value is what the latest writing step wrote. */
  lemma {:induction false} LatestWrite<E, T>(es: seq<E>, write: E -> Option<T>) returns (k: nat)
    requires SlotAfter(None, es, write).Some?
    ensures k < |es| && write(es[k]).Some?
    ensures forall j :: k < j < |es| ==> write(es[j]).None?
    ensures SlotAfter(None, es, write) == write(es[k])
    decreases |es|
  {
    var init, e := es[..|es| - 1], es[|es| - 1];
    assert es == init + [e];
    SlotAfterAppend(None, init, e, write);
    if write(e).Some? {
      k := |es| - 1;
    } else {
      k := LatestWrite(init, write);
      assert es[k] == init[k];
      forall j | k < j < |es| ensures write(es[j]).None? {
        if j < |init| {
          assert es[j] == init[j];
        }
      }
    }
  }
}
