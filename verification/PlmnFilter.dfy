/** The PLMN filter: a list of PLMN ids indexed by their first five digits. */
module PlmnFilter {
  import opened Prelude

  /** `l5`: the five digits alone are configured; `b6`: the sixth digit of a longer id. */
  datatype Entry = Entry(l5: bool, b6: char)

  type Table = map<string, Entry>

  function AddId(t: Table, id: string): Table
  {
    if |id| == 5 then t[id := Entry(true, 0 as char)]
    else if |id| == 6 then
      var val := if id[..5] in t then t[id[..5]] else Entry(false, 0 as char);
      t[id[..5] := val.(b6 := id[5])]
    else t
  }

  function TableOf(ids: seq<string>): Table
  {
    if ids == [] then map[] else AddId(TableOf(ids[..|ids| - 1]), ids[|ids| - 1])
  }

  method GetPlmnVals(ids: seq<string>) returns (plmnIds: Table)
    ensures plmnIds == TableOf(ids)
  {
    plmnIds := map[];
    for i := 0 to |ids|
      invariant plmnIds == TableOf(ids[..i])
    {
      assert ids[..i + 1][..i] == ids[..i];
      var id := ids[i];
      if |id| == 5 {
        plmnIds := plmnIds[id := Entry(true, 0 as char)];
      } else if |id| == 6 {
        var id5 := id[..5];
        var val := if id5 in plmnIds then plmnIds[id5] else Entry(false, 0 as char);
        plmnIds := plmnIds[id5 := val.(b6 := id[5])];
      }
    }
    assert ids[..|ids|] == ids;
  }

  /** None: the slice of the first five characters fails at run time. */
  function Check(t: Table, imsi: string): Option<bool>
  {
    if t == map[] then Some(true)
    else if |imsi| < 5 then None
    else Some(imsi[..5] in t
              && (t[imsi[..5]].l5 || (|imsi| > 5 && t[imsi[..5]].b6 == imsi[5])))
  }

  // What the table knows

  predicate HasSix(ids: seq<string>, p: string)
  {
    exists id <- ids :: |id| == 6 && id[..5] == p
  }

  /** The sixth digit of the last six-digit id that starts with `p`. */
  function LastSixth(ids: seq<string>, p: string): char
    requires HasSix(ids, p)
  {
    var last := ids[|ids| - 1];
    if |last| == 6 && last[..5] == p then last[5]
    else
      assert HasSix(ids[..|ids| - 1], p) by {
        var id :| id in ids && |id| == 6 && id[..5] == p;
        assert id in ids[..|ids| - 1];
      }
      LastSixth(ids[..|ids| - 1], p)
  }

  lemma MemberSplit(ids: seq<string>, x: string)
    requires ids != []
    ensures x in ids <==> x in ids[..|ids| - 1] || x == ids[|ids| - 1]
  {
    assert ids == ids[..|ids| - 1] + [ids[|ids| - 1]];
  }

  lemma HasSixSplit(ids: seq<string>, p: string)
    requires ids != []
    ensures var last := ids[|ids| - 1];
            HasSix(ids, p) <==> HasSix(ids[..|ids| - 1], p) || (|last| == 6 && last[..5] == p)
  {
    forall x {
      MemberSplit(ids, x);
    }
  }

  /** The table, entry by entry. */
  lemma {:induction false} TableEntry(ids: seq<string>, p: string)
    requires |p| == 5
    ensures p in TableOf(ids) <==> p in ids || HasSix(ids, p)
    ensures p in TableOf(ids) ==> TableOf(ids)[p].l5 == (p in ids)
    ensures p in TableOf(ids) && p !in ids ==> TableOf(ids)[p].b6 == LastSixth(ids, p)
    decreases |ids|
  {
    if ids != [] {
      TableEntry(ids[..|ids| - 1], p);
      MemberSplit(ids, p);
      HasSixSplit(ids, p);
    }
  }

  lemma {:induction false} KeysHaveFive(ids: seq<string>)
    ensures forall p <- TableOf(ids) :: |p| == 5
    decreases |ids|
  {
    if ids != [] {
      KeysHaveFive(ids[..|ids| - 1]);
    }
  }

  /** The table is empty, and the filter off, iff no id has five or six characters. */
  lemma EmptyIff(ids: seq<string>)
    ensures TableOf(ids) == map[] <==> forall id <- ids :: |id| != 5 && |id| != 6
  {
    if id :| id in ids && (|id| == 5 || |id| == 6) {
      TableEntry(ids, id[..5]);
      assert id[..5] == id || HasSix(ids, id[..5]);
    } else if TableOf(ids) != map[] {
      KeysHaveFive(ids);
      var p :| p in TableOf(ids);
      TableEntry(ids, p);
    }
  }

  // Agreement with the list

  /** Some configured id is a prefix of the IMSI. */
  predicate Matches(ids: seq<string>, imsi: string)
  {
    exists id <- ids :: (|id| == 5 || |id| == 6) && id <= imsi
  }

  predicate Accepts(ids: seq<string>, imsi: string)
  {
    Check(TableOf(ids), imsi) == Some(true)
  }

  lemma {:induction false} LastSixthIsConfigured(ids: seq<string>, p: string)
    requires HasSix(ids, p) && |p| == 5
    ensures p + [LastSixth(ids, p)] in ids
    decreases |ids|
  {
    var last := ids[|ids| - 1];
    if |last| == 6 && last[..5] == p {
      assert last == p + [last[5]];
    } else {
      HasSixSplit(ids, p);
      LastSixthIsConfigured(ids[..|ids| - 1], p);
    }
  }

  /** A filter that is on accepts only IMSIs that start with a configured id. */
  lemma AcceptsOnlyConfigured(ids: seq<string>, imsi: string)
    requires TableOf(ids) != map[] && Accepts(ids, imsi)
    ensures Matches(ids, imsi)
  {
    var p := imsi[..5];
    TableEntry(ids, p);
    if p in ids {
      assert p <= imsi;
    } else {
      LastSixthIsConfigured(ids, p);
      assert p + [imsi[5]] <= imsi;
    }
  }

  /** Two six-digit ids that differ only in the last digit, without the five-digit id they share. */
  predicate Shadowed(ids: seq<string>)
  {
    exists a, b | a in ids && b in ids :: |a| == 6 && |b| == 6 && a[..5] == b[..5] && a != b && a[..5] !in ids
  }

  lemma AcceptsAllConfigured(ids: seq<string>, imsi: string)
    requires !Shadowed(ids) && Matches(ids, imsi)
    ensures Accepts(ids, imsi)
  {
    var id :| id in ids && (|id| == 5 || |id| == 6) && id <= imsi;
    var p := imsi[..5];
    assert id[..5] == p;
    TableEntry(ids, p);
    if |id| == 5 {
      assert id == p;
    } else if p !in ids {
      LastSixthIsConfigured(ids, p);
      var other := p + [LastSixth(ids, p)];
      assert other[..5] == id[..5];
      assert other == id;
      assert id[5] == imsi[5];
    }
  }

  /**
   "One of the configured PLMN IDs matches passed IMSI" is what a filter that is
   on decides, for every IMSI of at least five digits, iff no id is shadowed.
   */
  lemma FilterAgreesIffNotShadowed(ids: seq<string>)
    requires TableOf(ids) != map[]
    ensures (forall imsi :: |imsi| >= 5 ==> (Accepts(ids, imsi) <==> Matches(ids, imsi))) <==> !Shadowed(ids)
  {
    if !Shadowed(ids) {
      forall imsi | |imsi| >= 5
        ensures Accepts(ids, imsi) <==> Matches(ids, imsi)
      {
        if Accepts(ids, imsi) {
          AcceptsOnlyConfigured(ids, imsi);
        }
        if Matches(ids, imsi) {
          AcceptsAllConfigured(ids, imsi);
        }
      }
    } else {
      var a, b :| a in ids && b in ids && |a| == 6 && |b| == 6 && a[..5] == b[..5] && a != b && a[..5] !in ids;
      var p := a[..5];
      TableEntry(ids, p);
      assert a == p + [a[5]] && b == p + [b[5]];
      var lost := if LastSixth(ids, p) == a[5] then b else a;
      assert lost in ids && lost <= lost && lost[..5] == p;
      assert Matches(ids, lost) && !Accepts(ids, lost);
    }
  }

  /** With no usable id every IMSI is accepted; otherwise an IMSI of fewer than five characters fails at run time. */
  lemma FilterOffAcceptsAll(ids: seq<string>, imsi: string)
    ensures (forall id <- ids :: |id| != 5 && |id| != 6) ==> Check(TableOf(ids), imsi) == Some(true)
    ensures (exists id <- ids :: |id| == 5 || |id| == 6) ==> (Check(TableOf(ids), imsi) == None <==> |imsi| < 5)
  {
    EmptyIff(ids);
  }

  /** The i-th id is the last six-digit one that starts with `p`. */
  predicate LastWith(ids: seq<string>, p: string, i: nat)
  {
    && i < |ids| && |ids[i]| == 6 && ids[i][..5] == p
    && forall j :: i < j < |ids| ==> |ids[j]| != 6 || ids[j][..5] != p
  }

  lemma {:induction false} LastSixthIsLast(ids: seq<string>, p: string, i: nat)
    requires |p| == 5 && LastWith(ids, p, i)
    ensures HasSix(ids, p) && LastSixth(ids, p) == ids[i][5]
    decreases |ids|
  {
    assert ids[i] in ids;
    if i < |ids| - 1 {
      LastSixthIsLast(ids[..|ids| - 1], p, i);
    }
  }

  /** Of the six-digit ids that share five digits, the last one is the one that counts. */
  lemma LastOfShadowedWins(ids: seq<string>, imsi: string, i: nat)
    requires |imsi| >= 5 && LastWith(ids, imsi[..5], i) && imsi[..5] !in ids
    ensures Accepts(ids, imsi) <==> ids[i] <= imsi
  {
    TableEntry(ids, imsi[..5]);
    LastSixthIsLast(ids, imsi[..5], i);
    assert ids[i] == imsi[..5] + [ids[i][5]];
    assert |imsi| > 5 ==> imsi[..6] == imsi[..5] + [imsi[5]];
    if ids[i] <= imsi {
      assert imsi[5] == ids[i][5];
    }
  }

  /** Without shadowing the order and repetition of the configured ids do not matter. */
  lemma OrderIsIrrelevant(ids: seq<string>, ids': seq<string>, imsi: string)
    requires (forall id :: id in ids <==> id in ids') && !Shadowed(ids)
    ensures Check(TableOf(ids), imsi) == Check(TableOf(ids'), imsi)
  {
    EmptyIff(ids);
    EmptyIff(ids');
    assert !Shadowed(ids');
    if TableOf(ids) != map[] && |imsi| >= 5 {
      FilterAgreesIffNotShadowed(ids);
      FilterAgreesIffNotShadowed(ids');
      assert Accepts(ids, imsi) <==> Matches(ids, imsi);
      assert Accepts(ids', imsi) <==> Matches(ids', imsi);
      assert Matches(ids, imsi) <==> Matches(ids', imsi);
    }
  }
}
