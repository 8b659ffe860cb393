/** How a finished backup is judged from the coordinator. */
module BackupOutcome {
  import opened Coordinator

  datatype Outcome = Failed(text: string) | Cancelled | Succeeded

  function Render(e: BackupError): string {
    (if |e.source| > 0 then e.source + " : " else "") + e.text
  }

  // Appends one error to the text so far, on a line of its own.
  function Append(text: string, e: BackupError): string {
    (if |text| > 0 then text + "\n" else text) + Render(e)
  }

  function ErrorText(errors: seq<BackupError>): string {
    if errors == [] then "" else Append(ErrorText(errors[..|errors| - 1]), errors[|errors| - 1])
  }

  method CollectErrorText(errors: seq<BackupError>) returns (text: string)
    ensures text == ErrorText(errors)
  {
    text := "";
    for k := 0 to |errors|
      invariant text == ErrorText(errors[..k])
    {
      var error := errors[k];
      if |text| > 0 {
        text := text + "\n";
      }
      if |error.source| > 0 {
        text := text + (error.source + " : ");
      }
      text := text + error.text;
      assert errors[..k + 1][..k] == errors[..k];
      assert text == Append(ErrorText(errors[..k]), error);
    }
    assert errors[..|errors|] == errors;
  }

  function Judge(text: string, cancelled: bool): Outcome {
    if |text| > 0 then Outcome.Failed(text) else if cancelled then Outcome.Cancelled else Succeeded
  }

  /** The text is empty exactly when every error is: one that carries neither text nor
      source leaves no mark, and a backup with only such errors is reported cancelled. */
  lemma {:induction false} ErrorTextEmptyIff(errors: seq<BackupError>)
    ensures ErrorText(errors) == "" <==> forall k :: 0 <= k < |errors| ==> errors[k] == BackupError("", "")
    decreases |errors|
  {
    if errors != [] {
      var n := |errors| - 1;
      ErrorTextEmptyIff(errors[..n]);
      assert forall k :: 0 <= k < n ==> errors[..n][k] == errors[k];
      assert |Render(errors[n])| == 0 <==> errors[n] == BackupError("", "");
      assert |ErrorText(errors)| >= |Render(errors[n])|;
    }
  }

  /** One error reads as its source, " : " and its text, or as the text alone. */
  lemma OneErrorText(e: BackupError)
    ensures ErrorText([e]) == if e.source == "" then e.text else e.source + " : " + e.text
  {
    assert [e][..0] == [];
    assert "" + Render(e) == Render(e);
  }

  /** Every further error is added after what was there, on a line of its own. */
  lemma NextErrorText(errors: seq<BackupError>, e: BackupError)
    requires ErrorText(errors) != ""
    ensures ErrorText(errors + [e])
         == ErrorText(errors) + "\n" + if e.source == "" then e.text else e.source + " : " + e.text
  {
    assert (errors + [e])[..|errors|] == errors;
    assert "" + e.text == e.text;
  }

  // The errors one per line.
  function Lines(errors: seq<BackupError>): string
    requires errors != []
  {
    if |errors| == 1 then Render(errors[0]) else Render(errors[0]) + "\n" + Lines(errors[1..])
  }

  lemma {:induction false} LinesSnoc(errors: seq<BackupError>, e: BackupError)
    requires errors != []
    ensures Lines(errors + [e]) == Lines(errors) + "\n" + Render(e)
    decreases |errors|
  {
    if |errors| == 1 {
      assert (errors + [e])[1..] == [e];
    } else {
      LinesSnoc(errors[1..], e);
      assert (errors + [e])[1..] == errors[1..] + [e];
    }
  }

  /** The text is all errors, one per line and in order, from the first that is not blank on;
      nothing is dropped but the blank ones before it. */
  lemma {:induction false} TextIsLines(blanks: nat, errors: seq<BackupError>)
    requires errors != [] && errors[0] != BackupError("", "")
    ensures ErrorText(seq(blanks, _ => BackupError("", "")) + errors) == Lines(errors)
    decreases |errors|
  {
    var before := seq(blanks, _ => BackupError("", ""));
    var all := before + errors;
    var n := |errors| - 1;
    assert all[..|all| - 1] == before + errors[..n];
    if n == 0 {
      ErrorTextEmptyIff(before);
      assert before + errors[..0] == before;
    } else {
      TextIsLines(blanks, errors[..n]);
      LinesSnoc(errors[..n], errors[n]);
      assert errors[..n] + [errors[n]] == errors;
      ErrorTextEmptyIff(before + errors[..n]);
      assert (before + errors[..n])[blanks] == errors[0];
    }
  }

  /** What each outcome says about the coordinator it was read from. */
  lemma OutcomeMeans(c: Coord)
    requires c.errors != [] ==> c.cancelled
    ensures var o := Judge(ErrorText(c.errors), c.cancelled);
            && (o.Succeeded? <==> !c.cancelled)
            && (o.Succeeded? ==> c.errors == [])
            && (o.Failed? <==> exists k :: 0 <= k < |c.errors| && c.errors[k] != BackupError("", ""))
            && (o.Failed? ==> o.text == ErrorText(c.errors))
            && (o.Cancelled? <==> c.cancelled && forall k :: 0 <= k < |c.errors| ==> c.errors[k] == BackupError("", ""))
  {
    ErrorTextEmptyIff(c.errors);
  }
}
