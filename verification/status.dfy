/**
 * The status caption of an account row: who reconciled and who reviewed the
 * account, and when, or a dash when neither box is ticked.
 */
module Status {
  import opened Wrappers
  import opened Marks

  const Unknown: string := "(ukendt)"
  const NoStatus: string := "\U{2014}"
  const ReconciledLead: string := "Afstemt af "
  const ReviewedLead: string := "\U{2022} Reviewet af "

  /** The reconciled half: the stamp of the mark, with "(ukendt)" for a missing actor. */
  function ReconciledPart(f: FlagMark): string {
    ReconciledLead + f.who.GetOr(Unknown) + " " + f.when.GetOr("") + "  "
  }

  function ReviewedPart(f: FlagMark): string {
    ReviewedLead + f.who.GetOr(Unknown) + " " + f.when.GetOr("")
  }

  /**
   * The caption for the checkbox values `reconciled` and `reviewed`, read from
   * the stamps of `rs`. Each ticked box contributes its half, reconciled first;
   * the caption is the dash exactly when no box is ticked.
   */
  function Caption(reconciled: bool, reviewed: bool, rs: MarkRecord): (r: string)
    ensures r == NoStatus <==> !reconciled && !reviewed
    ensures reconciled ==> ReconciledPart(rs.reconciled) <= r
    ensures reconciled && !reviewed ==> r == ReconciledPart(rs.reconciled)
    ensures reviewed && !reconciled ==> r == ReviewedPart(rs.reviewed)
    ensures reviewed && reconciled ==> r == ReconciledPart(rs.reconciled) + ReviewedPart(rs.reviewed)
  {
    var stamp := (if reconciled then ReconciledPart(rs.reconciled) else "")
               + (if reviewed then ReviewedPart(rs.reviewed) else "");
    if stamp == "" then NoStatus
    else
      assert reconciled ==> stamp[0] == 'A';
      assert !reconciled ==> stamp[0] == '\U{2022}';
      stamp
  }

  /** `s` ends with `t`. */
  predicate EndsWith(s: string, t: string) {
    |t| <= |s| && s[|s| - |t|..] == t
  }

  /**
   * The caption as the row loop draws it: from the record as it was before
   * this pass. A box ticked in this pass is shown with "(ukendt)" although the
   * same pass stamps the mark with the actor and the time.
   */
  lemma CaptionBeforeUpdateShowsUnknown(rs: MarkRecord, w: Widgets, actor: string, now: string)
    requires WellFormedRecord(rs)
    ensures w.reconciled && !IsSet(rs.reconciled) ==>
              && ReconciledLead + Unknown + " " <= Caption(w.reconciled, w.reviewed, rs)
              && UpdateRecord(rs, w, actor, now).reconciled.who == Some(actor)
    ensures w.reviewed && !IsSet(rs.reviewed) ==>
              && EndsWith(Caption(w.reconciled, w.reviewed, rs), ReviewedLead + Unknown + " ")
              && UpdateRecord(rs, w, actor, now).reviewed.who == Some(actor)
  {
  }

  /**
   * The caption drawn from the record this pass leaves behind. On any record,
   * a box ticked in this pass shows the actor and the time it was just stamped
   * with; for a well-formed record the caption is exactly the halves of the
   * ticked boxes with their real stamps, so no ticked box shows "(ukendt)".
   */
  function SettledCaption(rs: MarkRecord, w: Widgets, actor: string, now: string): (r: string)
    ensures r == NoStatus <==> !w.reconciled && !w.reviewed
    ensures w.reconciled && !IsSet(rs.reconciled) ==> ReconciledLead + actor + " " + now + "  " <= r
    ensures w.reconciled && !w.reviewed && !IsSet(rs.reconciled) ==> r == ReconciledLead + actor + " " + now + "  "
    ensures w.reviewed && !IsSet(rs.reviewed) ==> EndsWith(r, ReviewedLead + actor + " " + now)
    ensures w.reviewed && !w.reconciled && !IsSet(rs.reviewed) ==> r == ReviewedLead + actor + " " + now
    ensures w.reconciled && w.reviewed ==>
              var after := UpdateRecord(rs, w, actor, now);
              r == ReconciledPart(after.reconciled) + ReviewedPart(after.reviewed)
    ensures WellFormedRecord(rs) && w.reconciled && !w.reviewed ==>
              var f := UpdateRecord(rs, w, actor, now).reconciled;
              f.who.Some? && f.when.Some? && r == ReconciledLead + f.who.value + " " + f.when.value + "  "
    ensures WellFormedRecord(rs) && w.reviewed && !w.reconciled ==>
              var f := UpdateRecord(rs, w, actor, now).reviewed;
              f.who.Some? && f.when.Some? && r == ReviewedLead + f.who.value + " " + f.when.value
    ensures WellFormedRecord(rs) && w.reconciled && w.reviewed ==>
              var after := UpdateRecord(rs, w, actor, now);
              var f := after.reconciled;
              var g := after.reviewed;
              && f.who.Some? && f.when.Some? && g.who.Some? && g.when.Some?
              && r == ReconciledLead + f.who.value + " " + f.when.value + "  "
                      + ReviewedLead + g.who.value + " " + g.when.value
  {
    Caption(w.reconciled, w.reviewed, UpdateRecord(rs, w, actor, now))
  }

  /** On a fresh account, ticking "Afstemt" shows "(ukendt)" as written and the actor once settled. */
  lemma FreshTickExample(now: string)
    ensures Caption(true, false, EmptyRecord) == "Afstemt af (ukendt)   "
    ensures SettledCaption(EmptyRecord, Widgets("", true, false), DefaultUser, now)
            == "Afstemt af Current User " + now + "  "
  {
  }
}
