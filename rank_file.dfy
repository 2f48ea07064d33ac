/** The rank file: one handle per line, in finishing order. */
module RankFile {
  import opened Records

  /** The handle-to-rank map the parser builds: the line at 0-based index i is given rank
      i + 1, and a later identical line overwrites the rank of an earlier one. */
  function Ranks(lines: seq<Handle>): (r: map<Handle, int>)
    ensures forall h :: h in r ==> 1 <= r[h] <= |lines|
    ensures lines != [] ==> lines[|lines| - 1] in r && r[lines[|lines| - 1]] == |lines|
    decreases |lines|
  {
    if lines == [] then map[]
    else Ranks(lines[..|lines| - 1])[lines[|lines| - 1] := |lines|]
  }

  /** The keys are exactly the distinct lines. */
  lemma {:induction false} RanksKeys(lines: seq<Handle>)
    ensures Ranks(lines).Keys == set h | h in lines
    decreases |lines|
  {
    if lines != [] {
      var init, last := lines[..|lines| - 1], lines[|lines| - 1];
      assert lines == init + [last];
      RanksKeys(init);
    }
  }

  /** Every rank lies in 1..|lines| and is the 1-based index of the last occurrence of its
      handle; every line is ranked at or after its own position. */
  lemma {:induction false} RanksAreLastOccurrences(lines: seq<Handle>)
    ensures forall h :: h in Ranks(lines) ==>
      && 1 <= Ranks(lines)[h] <= |lines|
      && lines[Ranks(lines)[h] - 1] == h
      && forall j :: Ranks(lines)[h] <= j < |lines| ==> lines[j] != h
    ensures forall i :: 0 <= i < |lines| ==> lines[i] in Ranks(lines) && Ranks(lines)[lines[i]] >= i + 1
    decreases |lines|
  {
    if lines != [] {
      var init, last := lines[..|lines| - 1], lines[|lines| - 1];
      assert lines == init + [last];
      RanksAreLastOccurrences(init);
      RanksKeys(init);
    }
  }

  /** A handle is ranked exactly when it is one of the lines. */
  lemma RankedIffListed(lines: seq<Handle>, h: Handle)
    ensures h in Ranks(lines) <==> h in lines
  {
    RanksKeys(lines);
  }

  /** A sequence extended by one element has no repeats exactly when the prefix has none
      and does not contain the new element. */
  lemma DistinctSnoc<T>(init: seq<T>, last: T)
    ensures Distinct(init + [last]) <==> Distinct(init) && last !in init
  {
    var lines := init + [last];
    if Distinct(lines) {
      forall i, j | 0 <= i < j < |init| ensures init[i] != init[j] {
        assert init[i] == lines[i] && init[j] == lines[j];
      }
      forall k | 0 <= k < |init| ensures init[k] != last {
        assert init[k] == lines[k] && last == lines[|init|];
      }
    }
    if Distinct(init) && last !in init {
      forall i, j | 0 <= i < j < |lines| ensures lines[i] != lines[j] {
        if j < |init| {
          assert lines[i] == init[i] && lines[j] == init[j];
        } else {
          assert lines[i] == init[i];
        }
      }
    }
  }

  /** The map has at most one entry per line, and exactly one per line when no line repeats. */
  lemma {:induction false} RanksSize(lines: seq<Handle>)
    ensures |Ranks(lines)| <= |lines|
    ensures |Ranks(lines)| == |lines| <==> Distinct(lines)
    decreases |lines|
  {
    if lines != [] {
      var init, last := lines[..|lines| - 1], lines[|lines| - 1];
      assert lines == init + [last];
      RanksSize(init);
      RankedIffListed(init, last);
      DistinctSnoc(init, last);
    }
  }

  /** When every line is a handle of the set `allowed`, so is every ranked handle. */
  lemma RanksWithin(lines: seq<Handle>, allowed: set<Handle>)
    requires forall h :: h in lines ==> h in allowed
    ensures Ranks(lines).Keys <= allowed
  {
    RanksKeys(lines);
  }
}
