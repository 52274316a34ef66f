/**
 * One run of the account table: the visible rows are chosen, and for each of
 * them, in order, the status caption is drawn and the mark update is applied
 * to the shared `recon` map. Also the effect of many such updates in a row.
 */
module Render {
  import opened Wrappers
  import opened Marks
  import opened Rows
  import opened Status

  /**
   * The widget values of an account row. `inputs` holds the values the user
   * has set, keyed by account key as the widgets are; a row whose widgets the
   * user has not touched shows the stored values.
   */
  function WidgetsFor(inputs: map<string, Widgets>, m: Recon, key: string): Widgets {
    if key in inputs then inputs[key] else Shown(View(m, key))
  }

  /** Some row of `rows` has account key `key`. */
  ghost predicate Mentions(rows: seq<Row>, key: string) {
    exists j :: 0 <= j < |rows| && rows[j].number == key
  }

  lemma MentionsExtend(rows: seq<Row>, i: nat, key: string)
    requires i < |rows|
    ensures Mentions(rows[..i + 1], key) <==> Mentions(rows[..i], key) || rows[i].number == key
  {
  }

  /** Every account among `shown` that the user edited stores what its widgets show. */
  ghost predicate EditsStored(r: Recon, inputs: map<string, Widgets>, shown: seq<Row>) {
    forall k :: k in inputs && Mentions(shown, k) ==> Shown(View(r, k)) == inputs[k]
  }

  /** Every other account is as it was in `m`, including whether its key exists. */
  ghost predicate OthersUnchanged(m: Recon, r: Recon, inputs: map<string, Widgets>, shown: seq<Row>) {
    forall k :: !(k in inputs && Mentions(shown, k)) ==> (k in r <==> k in m) && View(r, k) == View(m, k)
  }

  /**
   * Every account among `shown` that the user edited is as the update of its
   * widget values applied to `m` leaves it: same stamps, and its key exists
   * exactly when that update writes it.
   */
  ghost predicate EditsApplied(m: Recon, r: Recon, inputs: map<string, Widgets>, shown: seq<Row>,
                               user: Option<string>, now: string)
  {
    forall k :: k in inputs && Mentions(shown, k) ==>
      && (k in r <==> k in UpdateMarks(m, k, inputs[k], user, now))
      && View(r, k) == View(UpdateMarks(m, k, inputs[k], user, now), k)
  }

  /**
   * The captions as drawn: the dash exactly when neither of the row's boxes is
   * ticked, and for the first row of an account, the caption of its ticked
   * boxes read from the record as it was before the run.
   */
  ghost predicate CaptionsMatch(captions: seq<string>, inputs: map<string, Widgets>, m: Recon, shown: seq<Row>)
    requires |captions| == |shown|
  {
    forall j :: 0 <= j < |shown| ==>
      var w := WidgetsFor(inputs, m, shown[j].number);
      && (captions[j] == NoStatus <==> !w.reconciled && !w.reviewed)
      && (!Mentions(shown[..j], shown[j].number) ==>
            captions[j] == Caption(w.reconciled, w.reviewed, View(m, shown[j].number)))
  }

  /** Appending the caption of the row at index `i` extends `CaptionsMatch` to `rows[..i + 1]`. */
  lemma CaptionStep(captions: seq<string>, c: string, inputs: map<string, Widgets>, m: Recon,
                    rows: seq<Row>, i: nat)
    requires i < |rows| && |captions| == i
    requires CaptionsMatch(captions, inputs, m, rows[..i])
    requires var w := WidgetsFor(inputs, m, rows[i].number);
             && (c == NoStatus <==> !w.reconciled && !w.reviewed)
             && (!Mentions(rows[..i], rows[i].number) ==> c == Caption(w.reconciled, w.reviewed, View(m, rows[i].number)))
    ensures CaptionsMatch(captions + [c], inputs, m, rows[..i + 1])
  {
    forall j | 0 <= j <= i
      ensures rows[..i + 1][..j] == rows[..j]
      ensures j < i ==> rows[..i][..j] == rows[..j]
    {
    }
  }

  /**
   * The update of one row, seen from an edited account `k` with widget values
   * `wk`: either `k` was handled before and already stands as its update
   * leaves it, or it is this row's account and still stands as in `m`.
   */
  lemma EditedKeyStep(m: Recon, r: Recon, key: string, w: Widgets, k: string, wk: Widgets,
                      user: Option<string>, now: string, handledBefore: bool)
    requires k == key ==> w == wk
    requires handledBefore || k == key
    requires handledBefore ==>
               && Shown(View(r, k)) == wk
               && (k in r <==> k in UpdateMarks(m, k, wk, user, now))
               && View(r, k) == View(UpdateMarks(m, k, wk, user, now), k)
    requires !handledBefore ==> (k in r <==> k in m) && View(r, k) == View(m, k)
    ensures var r' := UpdateMarks(r, key, w, user, now);
            && Shown(View(r', k)) == wk
            && (k in r' <==> k in UpdateMarks(m, k, wk, user, now))
            && View(r', k) == View(UpdateMarks(m, k, wk, user, now), k)
  {
  }

  /** The update of the row at index `i` extends the loop's facts from `rows[..i]` to `rows[..i + 1]`. */
  lemma UpdateRowStep(m: Recon, r: Recon, inputs: map<string, Widgets>, rows: seq<Row>, i: nat,
                      user: Option<string>, now: string)
    requires i < |rows|
    requires EditsStored(r, inputs, rows[..i])
    requires EditsApplied(m, r, inputs, rows[..i], user, now)
    requires OthersUnchanged(m, r, inputs, rows[..i])
    ensures var key := rows[i].number;
            var r' := UpdateMarks(r, key, WidgetsFor(inputs, r, key), user, now);
            && WidgetsFor(inputs, r, key) == WidgetsFor(inputs, m, key)
            && (!Mentions(rows[..i], key) ==> View(r, key) == View(m, key))
            && EditsStored(r', inputs, rows[..i + 1])
            && EditsApplied(m, r', inputs, rows[..i + 1], user, now)
            && OthersUnchanged(m, r', inputs, rows[..i + 1])
  {
    var key := rows[i].number;
    var w := WidgetsFor(inputs, r, key);
    var r' := UpdateMarks(r, key, w, user, now);
    forall k | k in inputs && Mentions(rows[..i + 1], k)
      ensures Shown(View(r', k)) == inputs[k]
      ensures (k in r' <==> k in UpdateMarks(m, k, inputs[k], user, now))
      ensures View(r', k) == View(UpdateMarks(m, k, inputs[k], user, now), k)
    {
      MentionsExtend(rows, i, k);
      EditedKeyStep(m, r, key, w, k, inputs[k], user, now, Mentions(rows[..i], k));
    }
    forall k | !(k in inputs && Mentions(rows[..i + 1], k))
      ensures (k in r' <==> k in m) && View(r', k) == View(m, k)
    {
      MentionsExtend(rows, i, k);
    }
  }

  /** Everything the row loop has established after handling `shown`. */
  ghost predicate RunFacts(m: Recon, r: Recon, inputs: map<string, Widgets>, shown: seq<Row>,
                           captions: seq<string>, user: Option<string>, now: string)
  {
    && |captions| == |shown|
    && CaptionsMatch(captions, inputs, m, shown)
    && EditsStored(r, inputs, shown)
    && EditsApplied(m, r, inputs, shown, user, now)
    && OthersUnchanged(m, r, inputs, shown)
    && m.Keys <= r.Keys
    && (WellFormed(m) ==> WellFormed(r))
  }

  /** Drawing the caption of row `i` and updating its marks extends `RunFacts` to `rows[..i + 1]`. */
  lemma RowStep(m: Recon, r: Recon, inputs: map<string, Widgets>, rows: seq<Row>, i: nat,
                captions: seq<string>, user: Option<string>, now: string)
    requires i < |rows|
    requires RunFacts(m, r, inputs, rows[..i], captions, user, now)
    ensures var key := rows[i].number;
            var w := WidgetsFor(inputs, r, key);
            RunFacts(m, UpdateMarks(r, key, w, user, now), inputs, rows[..i + 1],
                     captions + [Caption(w.reconciled, w.reviewed, View(r, key))], user, now)
  {
    var key := rows[i].number;
    var w := WidgetsFor(inputs, r, key);
    UpdateRowStep(m, r, inputs, rows, i, user, now);
    CaptionStep(captions, Caption(w.reconciled, w.reviewed, View(r, key)), inputs, m, rows, i);
  }

  /**
   * The table of one run: drops the "Fra-sum" rows, applies the selected
   * filters against the marks as they were at the start, then walks the
   * visible rows in order, drawing each caption from the record as it stands
   * before the row's update, then updating the marks.
   * Afterwards every visible account the user edited is exactly as the update
   * of its widget values leaves it (written only on change, stamped with the
   * user and the time); every other account is as it was; no key is removed;
   * and stamps stay consistent with their marks.
   */
  method RenderRows(m: Recon, rows: seq<Row>, filters: set<MarkFilter>,
                    inputs: map<string, Widgets>, user: Option<string>, now: string)
    returns (r: Recon, visible: seq<Row>, captions: seq<string>)
    ensures visible == ApplyMarkFilters(m, AccountRows(rows), filters)
    ensures |captions| == |visible|
    ensures CaptionsMatch(captions, inputs, m, visible)
    ensures EditsStored(r, inputs, visible)
    ensures EditsApplied(m, r, inputs, visible, user, now)
    ensures OthersUnchanged(m, r, inputs, visible)
    ensures m.Keys <= r.Keys
    ensures WellFormed(m) ==> WellFormed(r)
  {
    visible := ApplyMarkFilters(m, AccountRows(rows), filters);
    r := m;
    captions := [];
    var i := 0;
    while i < |visible|
      invariant 0 <= i <= |visible|
      invariant RunFacts(m, r, inputs, visible[..i], captions, user, now)
    {
      var key := visible[i].number;
      var w := WidgetsFor(inputs, r, key);
      RowStep(m, r, inputs, visible, i, captions, user, now);
      captions := captions + [Caption(w.reconciled, w.reviewed, View(r, key))];
      r := UpdateMarks(r, key, w, user, now);
      i := i + 1;
    }
    assert visible[..i] == visible;
  }

  /** One submitted pass over one account: its key, its widget values, the user and the time. */
  datatype Pass = Pass(key: string, widgets: Widgets, user: Option<string>, now: string)

  /** The marks after the given passes, applied in order. */
  function ApplyAll(m: Recon, passes: seq<Pass>): Recon
    decreases |passes|
  {
    if |passes| == 0 then m
    else
      var p := passes[0];
      ApplyAll(UpdateMarks(m, p.key, p.widgets, p.user, p.now), passes[1..])
  }

  /** Any sequence of passes keeps every stamp present exactly when its mark is set. */
  lemma {:induction false} PassesKeepStamps(m: Recon, passes: seq<Pass>)
    requires WellFormed(m)
    ensures WellFormed(ApplyAll(m, passes))
    decreases |passes|
  {
    if |passes| > 0 {
      var p := passes[0];
      PassesKeepStamps(UpdateMarks(m, p.key, p.widgets, p.user, p.now), passes[1..]);
    }
  }

  /** Starting from no marks at all, stamps are present exactly when their mark is set. */
  lemma StampsFromEmpty(passes: seq<Pass>)
    ensures WellFormed(ApplyAll(map[], passes))
  {
    PassesKeepStamps(map[], passes);
  }

  lemma {:induction false} ApplyAllAppend(m: Recon, passes: seq<Pass>, p: Pass)
    ensures ApplyAll(m, passes + [p]) == UpdateMarks(ApplyAll(m, passes), p.key, p.widgets, p.user, p.now)
    decreases |passes|
  {
    if |passes| == 0 {
      assert passes + [p] == [p];
    } else {
      var q := passes[0];
      assert (passes + [p])[1..] == passes[1..] + [p];
      ApplyAllAppend(UpdateMarks(m, q.key, q.widgets, q.user, q.now), passes[1..], p);
    }
  }

  /** Applying two runs of passes one after the other is applying their concatenation. */
  lemma {:induction false} ApplyAllConcat(m: Recon, first: seq<Pass>, rest: seq<Pass>)
    ensures ApplyAll(m, first + rest) == ApplyAll(ApplyAll(m, first), rest)
    decreases |first|
  {
    if |first| == 0 {
      assert first + rest == rest;
    } else {
      var p := first[0];
      assert (first + rest)[1..] == first[1..] + rest;
      ApplyAllConcat(UpdateMarks(m, p.key, p.widgets, p.user, p.now), first[1..], rest);
    }
  }

  /**
   * The stored marks of an account end as the widget values of the last pass
   * over it, whatever passes over other accounts come after.
   */
  lemma LastPassWins(m: Recon, passes: seq<Pass>, j: nat)
    requires j < |passes|
    requires forall i :: j < i < |passes| ==> passes[i].key != passes[j].key
    ensures Shown(View(ApplyAll(m, passes), passes[j].key)) == passes[j].widgets
  {
    var key := passes[j].key;
    var first, rest := passes[..j + 1], passes[j + 1..];
    assert passes == first + rest;
    ApplyAllConcat(m, first, rest);
    assert first == passes[..j] + [passes[j]];
    ApplyAllAppend(m, passes[..j], passes[j]);
    forall i | 0 <= i < |rest|
      ensures rest[i].key != key
    {
      assert rest[i] == passes[j + 1 + i];
    }
    OtherPassesLeaveKey(ApplyAll(m, first), rest, key);
  }

  /** Passes over other accounts never touch an account's marks, nor create its key. */
  lemma {:induction false} OtherPassesLeaveKey(m: Recon, passes: seq<Pass>, key: string)
    requires forall i :: 0 <= i < |passes| ==> passes[i].key != key
    ensures var r := ApplyAll(m, passes);
            (key in r <==> key in m) && View(r, key) == View(m, key)
    decreases |passes|
  {
    if |passes| > 0 {
      var p := passes[0];
      OtherPassesLeaveKey(UpdateMarks(m, p.key, p.widgets, p.user, p.now), passes[1..], key);
    }
  }
}
