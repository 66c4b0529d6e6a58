/**
 * The admin tables' row selection, shared by the user and item pages: the
 * per-row checkbox, the select-all box, its checked state, and the error
 * text a batch delete leaves behind.
 */
module Selection {
  import opened Outcomes
  import opened Sequences
  import opened Text

  /** `handleCheckboxChange` (and the password eye toggle): copy the set and
      flip the membership of one id. */
  function Toggle(sel: set<nat>, id: nat): (r: set<nat>)
    ensures id in r <==> id !in sel
    ensures forall x :: x != id ==> (x in r <==> x in sel)
  {
    if id in sel then sel - {id} else sel + {id}
  }

  lemma ToggleTwiceRestores(sel: set<nat>, id: nat)
    ensures Toggle(Toggle(sel, id), id) == sel
  {
  }

  /** `handleSelectAllChange`: every listed id when checked, none otherwise. */
  function SelectAll(ids: seq<nat>, checked: bool): (r: set<nat>)
    ensures checked ==> forall x :: x in r <==> x in ids
    ensures !checked ==> r == {}
  {
    if checked then IdSet(ids) else {}
  }

  /** `rows.length > 0 && selected.size === rows.length`. */
  predicate IsAllSelected(rowCount: nat, sel: set<nat>)
  {
    rowCount > 0 && |sel| == rowCount
  }

  /** The ids listed, as a set. */
  function IdSet(ids: seq<nat>): set<nat>
  {
    set x | x in ids
  }

  lemma {:induction false} DistinctCard(ids: seq<nat>)
    requires NoDuplicates(ids)
    ensures |IdSet(ids)| == |ids|
  {
    if ids != [] {
      var init := ids[..|ids| - 1];
      var last := ids[|ids| - 1];
      assert NoDuplicates(init);
      DistinctCard(init);
      assert ids == init + [last];
      assert IdSet(ids) == IdSet(init) + {last};
    } else {
      assert IdSet(ids) == {};
    }
  }

  /** Over distinct row ids, and a selection drawn from them, the size test
      says exactly that every row is selected. */
  lemma IsAllSelectedIff(ids: seq<nat>, sel: set<nat>)
    requires NoDuplicates(ids) && forall x :: x in sel ==> x in ids
    ensures IsAllSelected(|ids|, sel) <==> ids != [] && sel == SelectAll(ids, true)
  {
    var all := SelectAll(ids, true);
    DistinctCard(ids);
    assert sel <= all;
    if |sel| == |ids| {
      assert |all - sel| == |all| - |sel|;
      assert all - sel == {};
    }
  }

  /** `Failed to delete N <noun>(s). Details: e1, e2, ...`. */
  function FailureText(noun: string, failures: seq<string>): string
  {
    "Failed to delete " + NatToString(|failures|) + " " + noun + "(s). Details: " + Join(failures, ", ")
  }

  /** The `setError` calls a batch delete makes, in order, as written: clear,
      report the failures, then the refetch clears again and reports its own
      failure. `refetchError` is what the refetch writes after clearing. */
  function BatchErrorWritesAsWritten(noun: string, failures: seq<string>, refetchError: Option<string>)
    : seq<Option<string>>
  {
    [None]
    + (if failures != [] then [Some(FailureText(noun, failures))] else [])
    + [None]
    + (if refetchError.Some? then [refetchError] else [])
  }

  /** React keeps the last value written. */
  function LastWrite(writes: seq<Option<string>>): Option<string>
  {
    if writes == [] then None else writes[|writes| - 1]
  }

  function BatchErrorAsWritten(noun: string, failures: seq<string>, refetchError: Option<string>): Option<string>
  {
    LastWrite(BatchErrorWritesAsWritten(noun, failures, refetchError))
  }

  /** As written, the failure report never outlives the refetch: the error
      shown is whatever the refetch left, whatever failed. */
  lemma BatchFailureIsHidden(noun: string, failures: seq<string>, refetchError: Option<string>)
    ensures BatchErrorAsWritten(noun, failures, refetchError) == refetchError
    ensures BatchErrorAsWritten(noun, failures, refetchError) == BatchErrorAsWritten(noun, [], refetchError)
  {
  }

  /** One failed deletion followed by a successful refetch shows no error. */
  lemma BatchFailureIsHiddenExample()
    ensures BatchErrorAsWritten("item", ["Item not found."], None) == None
  {
    BatchFailureIsHidden("item", ["Item not found."], None);
  }

  /** The intended outcome: the failure report, written after the refetch, is
      what the page shows; with no failure the refetch's own error stands. */
  function BatchError(noun: string, failures: seq<string>, refetchError: Option<string>): (r: Option<string>)
    ensures failures != [] ==> r == Some(FailureText(noun, failures))
    ensures failures == [] ==> r == refetchError
  {
    LastWrite([None, None]
              + (if refetchError.Some? then [refetchError] else [])
              + (if failures != [] then [Some(FailureText(noun, failures))] else []))
  }

  /** The reported text states the number of failures, and that number can be
      read back from it. */
  lemma FailureCountReadsBack(noun: string, failures: seq<string>, refetchError: Option<string>)
    requires failures != []
    ensures var shown := BatchError(noun, failures, refetchError).value;
      var digits := NatToString(|failures|);
      && shown[..17] == "Failed to delete "
      && shown[17..17 + |digits|] == digits
      && ParseNat(shown[17..17 + |digits|]) == |failures|
  {
    var digits := NatToString(|failures|);
    var rest := " " + noun + "(s). Details: " + Join(failures, ", ");
    assert FailureText(noun, failures) == "Failed to delete " + digits + rest;
    ConcatSlices("Failed to delete ", digits, rest);
    NatToStringRoundTrip(|failures|);
  }

  // Bookkeeping for the batch loops: `done` are the ids attempted so far,
  // `gone` the ids present before the batch, `done - gone` the failures.

  lemma FailedSetUnchanged(done: set<nat>, gone: set<nat>, id: nat)
    requires id in gone
    ensures (done + {id}) - gone == done - gone
  {
  }

  lemma FailedSetGrows(done: set<nat>, gone: set<nat>, id: nat)
    requires id !in gone && id !in done
    ensures |(done + {id}) - gone| == |done - gone| + 1
  {
    assert (done + {id}) - gone == (done - gone) + {id};
  }

  lemma NothingPending(ids: set<nat>, pending: set<nat>, done: set<nat>)
    requires pending == {} && done == ids - pending
    ensures done == ids
  {
  }
}
