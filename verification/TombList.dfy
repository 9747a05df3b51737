// The tombstone list as the slice it is: a buffer with a length, compacted and cut in place.
module TombList {
  import opened Seqs
  import opened HistorySpec

  class Tombs {
    var buf: array<Tomb>
    var count: nat

    ghost predicate Valid()
      reads this
    {
      count <= buf.Length
    }

    ghost function Contents(): seq<Tomb>
      reads this, buf
      requires Valid()
    {
      buf[..count]
    }

    constructor ()
      ensures Valid() && Contents() == [] && fresh(buf)
    {
      buf := new Tomb[0];
      count := 0;
    }

    method Append(t: Tomb)
      requires Valid()
      modifies this, buf
      ensures Valid() && Contents() == old(Contents()) + [t]
      ensures buf == old(buf) || fresh(buf)
    {
      if count == buf.Length {
        var bigger := new Tomb[2 * buf.Length + 1](_ => t);
        for i := 0 to count
          invariant fresh(bigger) && Valid() && bigger.Length == 2 * buf.Length + 1
          invariant bigger[..i] == buf[..i]
          modifies bigger
        {
          bigger[i] := buf[i];
        }
        buf := bigger;
      }
      buf[count] := t;
      count := count + 1;
    }

    /** append(s[:i], s[i+1:]...): the tail moves down by one, in place. */
    method RemoveIndex(i: nat)
      requires Valid() && i < count
      modifies this`count, buf
      ensures Valid() && Contents() == RemoveAt(old(Contents()), i)
    {
      ghost var was := Contents();
      for j := i to count - 1
        invariant Valid() && i <= j <= count - 1
        invariant buf[..j] == was[..i] + was[i + 1..j + 1]
        invariant buf[j..count] == was[j..]
        modifies buf
      {
        buf[j] := buf[j + 1];
        assert buf[..j + 1] == buf[..j] + [was[j + 1]];
        assert was[i + 1..j + 2] == was[i + 1..j + 1] + [was[j + 1]];
      }
      count := count - 1;
      assert Contents() == buf[..count];
    }

    /** kept := s[:0] and append: what is kept is written over the front of what is read. */
    method Compact(cut: int) returns (changed: bool)
      requires Valid()
      modifies this`count, buf
      ensures Valid() && Contents() == PruneClosed(old(Contents()), cut)
      ensures changed <==> Contents() != old(Contents())
    {
      ghost var was := Contents();
      ghost var p := NotBefore(cut);
      var kept := 0;
      changed := false;
      for i := 0 to count
        invariant Valid() && kept <= i
        invariant buf[..kept] == Filter(p, was[..i])
        invariant forall j :: i <= j < count ==> buf[j] == was[j]
        invariant changed <==> kept != i
        modifies buf
      {
        assert buf[i] == was[i];
        FilterSnoc(p, was[..i], was[i]);
        assert was[..i + 1] == was[..i] + [was[i]];
        if buf[i].closedAt < cut {
          changed := true;
        } else {
          buf[kept] := buf[i];
          assert buf[..kept + 1] == buf[..kept] + [was[i]];
          kept := kept + 1;
        }
      }
      assert was[..count] == was;
      if kept == count {
        FilterFull(p, was);
      }
      count := kept;
    }
  }

  lemma {:induction false} FilterFull(p: Tomb -> bool, xs: seq<Tomb>)
    requires |Filter(p, xs)| == |xs|
    ensures Filter(p, xs) == xs
  {
    if xs != [] {
      FilterFull(p, xs[1..]);
      assert xs == [xs[0]] + xs[1..];
    }
  }
}
