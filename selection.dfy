/**
 * Choosing the assessment type to upload against: the scan over the `items`
 * of the assessment-types response at the top level of the script.  Every
 * item whose `frequencyType` equals the requested type overwrites the chosen
 * id and frequency, so the last match wins; the remediation flag only ever
 * turns on.  No usable match stops the run before anything is uploaded.
 */
module Selection {
  import opened Wrappers
  import opened Errors

  /**
   * One entry of `items`.  `assessmentTypeId` is `None` when the JSON value is
   * null or absent; `isRemediation` holds when the JSON value is `true` itself.
   */
  datatype Item = Item(assessmentTypeId: Option<int>, frequencyType: string, isRemediation: bool)

  /** What `upload` is called with: the id, the frequency and the flag as the string "true"/"false". */
  datatype Assessment = Assessment(id: int, frequency: string, remediation: string)

  predicate Matches(it: Item, requested: string) { it.frequencyType == requested }

  /** The last matching item of `items`. */
  function LastMatch(items: seq<Item>, requested: string): (m: Option<Item>)
    ensures m.Some? ==> Matches(m.value, requested)
  {
    if items == [] then None
    else if Matches(items[|items| - 1], requested) then Some(items[|items| - 1])
    else LastMatch(items[..|items| - 1], requested)
  }

  /** Whether some matching item is flagged as a remediation scan. */
  function AnyRemediation(items: seq<Item>, requested: string): bool
  {
    if items == [] then false
    else (Matches(items[|items| - 1], requested) && items[|items| - 1].isRemediation)
         || AnyRemediation(items[..|items| - 1], requested)
  }

  function FlagText(b: bool): string { if b then "true" else "false" }

  /** The outcome of the selection: the reference the loop below is proved against. */
  function Select(items: seq<Item>, requested: string): Result<Assessment, Error>
  {
    match LastMatch(items, requested)
    case None => Failure(AssessmentNotFound)
    case Some(it) =>
      if it.assessmentTypeId.None? then Failure(AssessmentNotFound)
      else Success(Assessment(it.assessmentTypeId.value, it.frequencyType, FlagText(AnyRemediation(items, requested))))
  }

  /**
   * The loop of the script: three variables start as nil, nil and "false",
   * every matching item overwrites the first two and may set the third, and a
   * nil id afterwards aborts the run.
   */
  method SelectAssessment(items: seq<Item>, requested: string) returns (r: Result<Assessment, Error>)
    ensures r == Select(items, requested)
  {
    var assessmentTypeId: Option<int> := None;
    var frequencyType: Option<string> := None;
    var isRemediation := "false";
    for k := 0 to |items|
      invariant assessmentTypeId == (match LastMatch(items[..k], requested)
                                     case None => None
                                     case Some(it) => it.assessmentTypeId)
      invariant frequencyType == (if LastMatch(items[..k], requested).Some? then Some(requested) else None)
      invariant isRemediation == FlagText(AnyRemediation(items[..k], requested))
    {
      assert items[..k + 1][..k] == items[..k];
      var at := items[k];
      if requested == at.frequencyType {
        assessmentTypeId := at.assessmentTypeId;
        frequencyType := Some(at.frequencyType);
        if at.isRemediation {
          isRemediation := "true";
        }
      }
    }
    assert items[..|items|] == items;
    if assessmentTypeId.None? {
      r := Failure(AssessmentNotFound);
    } else {
      r := Success(Assessment(assessmentTypeId.value, frequencyType.value, isRemediation));
    }
  }

  lemma {:induction false} LastMatchIsLast(items: seq<Item>, requested: string)
    ensures LastMatch(items, requested).None? <==> forall i :: 0 <= i < |items| ==> !Matches(items[i], requested)
    ensures LastMatch(items, requested).Some? ==>
      exists i :: 0 <= i < |items| && items[i] == LastMatch(items, requested).value && Matches(items[i], requested)
        && forall j :: i < j < |items| ==> !Matches(items[j], requested)
  {
    if items != [] {
      var n := |items| - 1;
      LastMatchIsLast(items[..n], requested);
      if !Matches(items[n], requested) {
        if LastMatch(items, requested).Some? {
          var i :| 0 <= i < n && items[..n][i] == LastMatch(items, requested).value && Matches(items[..n][i], requested)
                   && forall j :: i < j < n ==> !Matches(items[..n][j], requested);
          assert items[i] == items[..n][i];
        }
      }
    }
  }

  lemma {:induction false} AnyRemediationExists(items: seq<Item>, requested: string)
    ensures AnyRemediation(items, requested)
        <==> exists i :: 0 <= i < |items| && Matches(items[i], requested) && items[i].isRemediation
  {
    if items != [] {
      var n := |items| - 1;
      AnyRemediationExists(items[..n], requested);
      if AnyRemediation(items[..n], requested) {
        var i :| 0 <= i < n && Matches(items[..n][i], requested) && items[..n][i].isRemediation;
        assert items[i] == items[..n][i];
      }
      if exists i :: 0 <= i < |items| && Matches(items[i], requested) && items[i].isRemediation {
        var i :| 0 <= i < |items| && Matches(items[i], requested) && items[i].isRemediation;
        if i < n {
          assert items[..n][i] == items[i];
        }
      }
    }
  }

  /**
   * A selected assessment is the last matching item's id, the requested
   * frequency, and "true" exactly when some matching item is a remediation.
   */
  lemma SelectChoosesLastMatch(items: seq<Item>, requested: string)
    requires Select(items, requested).Success?
    ensures var a := Select(items, requested).value;
      && a.frequency == requested
      && (a.remediation == "true" <==> exists i :: 0 <= i < |items| && Matches(items[i], requested) && items[i].isRemediation)
      && (a.remediation == "false" <==> !exists i :: 0 <= i < |items| && Matches(items[i], requested) && items[i].isRemediation)
      && exists i :: 0 <= i < |items| && Matches(items[i], requested) && items[i].assessmentTypeId == Some(a.id)
           && forall j :: i < j < |items| ==> !Matches(items[j], requested)
  {
    LastMatchIsLast(items, requested);
    AnyRemediationExists(items, requested);
  }

  /**
   * The run stops with AssessmentNotFound exactly when no item matches, or the
   * last matching item carries no id.
   */
  lemma SelectFails(items: seq<Item>, requested: string)
    ensures Select(items, requested).Failure? ==> Select(items, requested).error == AssessmentNotFound
    ensures (forall i :: 0 <= i < |items| ==> !Matches(items[i], requested)) ==> Select(items, requested).Failure?
    ensures Select(items, requested).Failure? <==>
      forall i :: 0 <= i < |items| && Matches(items[i], requested) ==>
        (items[i].assessmentTypeId.None? || exists j :: i < j < |items| && Matches(items[j], requested))
  {
    LastMatchIsLast(items, requested);
  }

  /** Items of another frequency never change the outcome, wherever they stand. */
  lemma {:induction false} SelectIgnoresOthers(items: seq<Item>, other: Item, k: nat, requested: string)
    requires k <= |items|
    requires !Matches(other, requested)
    ensures Select(items[..k] + [other] + items[k..], requested) == Select(items, requested)
  {
    IgnoresOthers(items, other, k, requested);
  }

  lemma {:induction false} IgnoresOthers(items: seq<Item>, other: Item, k: nat, requested: string)
    requires k <= |items|
    requires !Matches(other, requested)
    ensures var with := items[..k] + [other] + items[k..];
      LastMatch(with, requested) == LastMatch(items, requested)
      && AnyRemediation(with, requested) == AnyRemediation(items, requested)
    decreases |items|
  {
    var with := items[..k] + [other] + items[k..];
    if k == |items| {
      assert with[..|with| - 1] == items;
    } else {
      var n := |items| - 1;
      assert with[|with| - 1] == items[n];
      assert with[..|with| - 1] == items[..n][..k] + [other] + items[..n][k..];
      IgnoresOthers(items[..n], other, k, requested);
    }
  }

  /** Two items, the second of the requested kind: it is the one chosen; an unknown kind finds nothing. */
  lemma SelectExample()
    ensures Select([Item(Some(1), "A", false), Item(Some(2), "B", false)], "B") == Success(Assessment(2, "B", "false"))
    ensures Select([Item(Some(1), "A", false), Item(Some(2), "B", false)], "C") == Failure(AssessmentNotFound)
    ensures Select([Item(Some(42), "OnDemand", false)], "OnDemand") == Success(Assessment(42, "OnDemand", "false"))
  {
    var items := [Item(Some(1), "A", false), Item(Some(2), "B", false)];
    assert items[..1] == [Item(Some(1), "A", false)];
    assert [Item(Some(1), "A", false)][..0] == [];
  }
}
