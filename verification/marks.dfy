/**
 * The per-account mark record of the reconciliation tracker and the update
 * that one pass of the row loop applies to it.
 *
 * The persisted `recon` dictionary maps an account key (the account number as
 * text) to a record holding an optional document link and two independent
 * boolean marks, "reconciled" and "reviewed", each with an optional stamp of
 * who set it and when.
 */
module Marks {
  import opened Wrappers

  /** One boolean mark with its stamp: the `reconciled`/`reconciled_by`/`reconciled_at`
      keys of a record (or the `reviewed*` ones). Every key may be missing. */
  datatype FlagMark = FlagMark(flag: Option<bool>, who: Option<string>, when: Option<string>)

  /** A mark record: the `doc_link` key and the two marks. */
  datatype MarkRecord = MarkRecord(docLink: Option<string>, reconciled: FlagMark, reviewed: FlagMark)

  /** The marks of all accounts, keyed by account key. */
  type Recon = map<string, MarkRecord>

  /** The three widget values shown for one account row: the link text box and the two checkboxes. */
  datatype Widgets = Widgets(link: string, reconciled: bool, reviewed: bool)

  const NoFlag: FlagMark := FlagMark(None, None, None)

  /** The record a missing key reads as (`recon_state.get(acc_key, {})`). */
  const EmptyRecord: MarkRecord := MarkRecord(None, NoFlag, NoFlag)

  /** The actor used when the state carries no `user` entry. */
  const DefaultUser: string := "Current User"

  /** The value of a mark as the code reads it: a missing flag counts as false. */
  function IsSet(f: FlagMark): bool {
    f.flag.GetOr(false)
  }

  /** The stored link as the code reads it: a missing link counts as the empty string. */
  function LinkOf(rs: MarkRecord): string {
    rs.docLink.GetOr("")
  }

  /** Reading a key never creates it: an absent key reads as the empty record. */
  function View(m: Recon, key: string): MarkRecord {
    if key in m then m[key] else EmptyRecord
  }

  /** The actor written into a new stamp: the state's `user`, or the default. */
  function Actor(user: Option<string>): string {
    user.GetOr(DefaultUser)
  }

  /** The widget values a record is displayed with before the user touches them. */
  function Shown(rs: MarkRecord): Widgets {
    Widgets(LinkOf(rs), IsSet(rs.reconciled), IsSet(rs.reviewed))
  }

  /** A mark carries both stamp fields exactly when it is set. */
  predicate WellStamped(f: FlagMark) {
    && (f.who.Some? <==> IsSet(f))
    && (f.when.Some? <==> IsSet(f))
  }

  predicate WellFormedRecord(rs: MarkRecord) {
    WellStamped(rs.reconciled) && WellStamped(rs.reviewed)
  }

  predicate WellFormed(m: Recon) {
    forall k :: k in m ==> WellFormedRecord(m[k])
  }

  /**
   * The transition of one mark for the checkbox value `input`:
   * false -> true sets the mark and stamps it with `actor` and `now`,
   * true -> false clears the mark and removes both stamp fields,
   * and an unchanged value leaves the mark and its stamp alone.
   */
  function UpdateFlag(f: FlagMark, input: bool, actor: string, now: string): (r: FlagMark)
    ensures IsSet(r) == input
    ensures input == IsSet(f) ==> r == f
    ensures input && !IsSet(f) ==> r.flag == Some(true) && r.who == Some(actor) && r.when == Some(now)
    ensures !input && IsSet(f) ==> r.flag == Some(false) && r.who == None && r.when == None
    ensures WellStamped(f) ==> WellStamped(r)
  {
    if input == IsSet(f) then f
    else if input then FlagMark(Some(true), Some(actor), Some(now))
    else FlagMark(Some(false), None, None)
  }

  /** The record is changed by a pass exactly when some widget shows something else than it stores. */
  predicate Differs(rs: MarkRecord, w: Widgets) {
    Shown(rs) != w
  }

  /**
   * One pass over a record: replace the link when it differs from the stored
   * one, then apply the mark transition to each of the two marks separately.
   */
  function UpdateRecord(rs: MarkRecord, w: Widgets, actor: string, now: string): (r: MarkRecord)
    ensures Shown(r) == w
    ensures !Differs(rs, w) ==> r == rs
    ensures r.docLink == (if w.link == LinkOf(rs) then rs.docLink else Some(w.link))
    ensures r.reconciled == UpdateFlag(rs.reconciled, w.reconciled, actor, now)
    ensures r.reviewed == UpdateFlag(rs.reviewed, w.reviewed, actor, now)
    ensures WellFormedRecord(rs) ==> WellFormedRecord(r)
  {
    MarkRecord(
      if w.link != LinkOf(rs) then Some(w.link) else rs.docLink,
      UpdateFlag(rs.reconciled, w.reconciled, actor, now),
      UpdateFlag(rs.reviewed, w.reviewed, actor, now))
  }

  /**
   * The mark update of one account row: the updated record is written back
   * under `key` only when something changed; every other key is left as it was.
   */
  function UpdateMarks(m: Recon, key: string, w: Widgets, user: Option<string>, now: string): (r: Recon)
    ensures Shown(View(r, key)) == w
    ensures !Differs(View(m, key), w) ==> r == m
    ensures Differs(View(m, key), w) ==> key in r && r[key] == UpdateRecord(View(m, key), w, Actor(user), now)
    ensures w.reconciled && !IsSet(View(m, key).reconciled) ==>
              key in r && r[key].reconciled == FlagMark(Some(true), Some(Actor(user)), Some(now))
    ensures w.reviewed && !IsSet(View(m, key).reviewed) ==>
              key in r && r[key].reviewed == FlagMark(Some(true), Some(Actor(user)), Some(now))
    ensures r.Keys == if Differs(View(m, key), w) then m.Keys + {key} else m.Keys
    ensures forall k :: k in m && k != key ==> r[k] == m[k]
    ensures WellFormed(m) ==> WellFormed(r)
  {
    var rs := View(m, key);
    if Differs(rs, w) then m[key := UpdateRecord(rs, w, Actor(user), now)] else m
  }

  /** Re-running a pass with the same widget values changes nothing more. */
  lemma UpdateMarksIdempotent(m: Recon, key: string, w: Widgets, user: Option<string>, now: string,
                              user': Option<string>, now': string)
    ensures var once := UpdateMarks(m, key, w, user, now);
            UpdateMarks(once, key, w, user', now') == once
  {
  }

  /** A key that is absent and whose widgets show the defaults stays absent. */
  lemma UntouchedKeyStaysAbsent(m: Recon, key: string, user: Option<string>, now: string)
    requires key !in m
    ensures key !in UpdateMarks(m, key, Widgets("", false, false), user, now)
    ensures UpdateMarks(m, key, Widgets("", false, false), user, now) == m
  {
  }

  /** Ticking and then unticking "reconciled" on a fresh record leaves it unset with no stamp. */
  lemma TickThenUntick(key: string, user: Option<string>, t1: string, t2: string)
    ensures var m1 := UpdateMarks(map[], key, Widgets("", true, false), user, t1);
            var m2 := UpdateMarks(m1, key, Widgets("", false, false), user, t2);
            && key in m2
            && m2[key].reconciled == FlagMark(Some(false), None, None)
            && m2[key].reviewed == NoFlag
  {
  }
}
