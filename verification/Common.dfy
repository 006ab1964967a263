/** What the components share: results that can fail, and a part of a sequence at a position. */
module Common {
  datatype Option<+T> = None | Some(value: T)

  datatype Result<+T, +E> = Ok(value: T) | Err(error: E)

  ghost predicate NoDuplicates<T>(s: seq<T>) {
    forall i, j :: 0 <= i < j < |s| ==> s[i] != s[j]
  }

  /** `s` holds `part` at position `pos`. */
  ghost predicate At<T>(s: seq<T>, pos: nat, part: seq<T>) {
    pos + |part| <= |s| && forall i :: 0 <= i < |part| ==> s[pos + i] == part[i]
  }

  lemma AtSlice<T>(s: seq<T>, pos: nat, part: seq<T>)
    requires At(s, pos, part)
    ensures s[pos..pos + |part|] == part
  {
  }

  lemma AtSplit<T>(s: seq<T>, pos: nat, a: seq<T>, b: seq<T>)
    requires At(s, pos, a + b)
    ensures At(s, pos, a) && At(s, pos + |a|, b)
  {
    var both := a + b;
    forall i | 0 <= i < |a|
      ensures s[pos + i] == a[i]
    {
      assert both[i] == a[i];
    }
    forall i | 0 <= i < |b|
      ensures s[pos + |a| + i] == b[i]
    {
      assert both[|a| + i] == b[i];
      assert s[pos + (|a| + i)] == both[|a| + i];
    }
  }

  lemma AtIndex<T>(s: seq<T>, pos: nat, part: seq<T>, i: nat)
    requires At(s, pos, part) && i < |part|
    ensures s[pos + i] == part[i]
  {
  }
}
