/**
 * Which trial-balance rows the account table shows: rows whose account type
 * is "Fra-sum" (subtotal lines) are dropped, then the optional sidebar filters
 * "Kun ikke afstemt" (only not reconciled) and "Kun ikke reviewet" (only not
 * reviewed) drop rows by the marks stored for their account key.
 */
module Rows {
  import opened Marks

  /** One trial-balance row, with the account number and type already turned into text. */
  datatype Row = Row(number: string, name: string, kind: string)

  /** The two sidebar filters. */
  datatype MarkFilter = NotReconciled | NotReviewed

  /** `r` is `s` with some elements left out, the rest in their original order. */
  ghost predicate IsSubsequence<T>(r: seq<T>, s: seq<T>)
    decreases |s|
  {
    || |r| == 0
    || (&& |s| > 0
        && ((r[0] == s[0] && IsSubsequence(r[1..], s[1..])) || IsSubsequence(r, s[1..])))
  }

  /** The elements of `s` that satisfy `p`, in order: boolean-mask indexing of a table. */
  function Keep<T>(s: seq<T>, p: T -> bool): (r: seq<T>)
    ensures IsSubsequence(r, s)
    ensures forall i :: 0 <= i < |r| ==> p(r[i])
    ensures forall i :: 0 <= i < |s| && p(s[i]) ==> s[i] in r
    ensures |r| <= |s|
  {
    if |s| == 0 then []
    else if p(s[0]) then [s[0]] + Keep(s[1..], p)
    else Keep(s[1..], p)
  }

  /** Only extensionally equal predicates matter to `Keep`. */
  lemma {:induction false} KeepSamePredicate<T>(s: seq<T>, p: T -> bool, q: T -> bool)
    requires forall x :: p(x) == q(x)
    ensures Keep(s, p) == Keep(s, q)
    decreases |s|
  {
    if |s| > 0 {
      KeepSamePredicate(s[1..], p, q);
    }
  }

  /** Masking twice is masking once by the conjunction. */
  lemma {:induction false} KeepKeep<T>(s: seq<T>, p: T -> bool, q: T -> bool, both: T -> bool)
    requires forall x :: both(x) == (p(x) && q(x))
    ensures Keep(Keep(s, p), q) == Keep(s, both)
    decreases |s|
  {
    if |s| > 0 {
      KeepKeep(s[1..], p, q, both);
      if p(s[0]) {
        assert Keep(s, p) == [s[0]] + Keep(s[1..], p);
        assert ([s[0]] + Keep(s[1..], p))[1..] == Keep(s[1..], p);
      }
    }
  }

  /** ASCII lower-casing of one character. */
  function LowerChar(c: char): char {
    if 'A' <= c <= 'Z' then (c as int + 32) as char else c
  }

  function Lower(s: string): string {
    seq(|s|, i requires 0 <= i < |s| => LowerChar(s[i]))
  }

  /** `a` and `b` agree letter by letter when the case of ASCII letters is ignored. */
  predicate SameIgnoringCase(a: string, b: string) {
    && |a| == |b|
    && forall i :: 0 <= i < |a| ==>
         || a[i] == b[i]
         || ('A' <= a[i] <= 'Z' && b[i] as int == a[i] as int + 32)
         || ('A' <= b[i] <= 'Z' && a[i] as int == b[i] as int + 32)
  }

  predicate NoUpperCase(t: string) {
    forall i :: 0 <= i < |t| ==> !('A' <= t[i] <= 'Z')
  }

  /** Lower-casing and comparing with a lower-case word is comparing without regard to case. */
  lemma LowerEqualsIffSameIgnoringCase(s: string, t: string)
    requires NoUpperCase(t)
    ensures Lower(s) == t <==> SameIgnoringCase(s, t)
  {
  }

  const FraSum: string := "fra-sum"

  /** The account mask: a row is shown unless its type, lower-cased, is "fra-sum". */
  predicate IsPostable(row: Row) {
    Lower(row.kind) != FraSum
  }

  /** A row is hidden exactly when its type spells "fra-sum" in any letter case. */
  lemma PostableIffNotFraSum(row: Row)
    ensures !IsPostable(row) <==> SameIgnoringCase(row.kind, FraSum)
  {
  }

  /** The account rows of a sheet, in sheet order. */
  function AccountRows(rows: seq<Row>): (r: seq<Row>)
    ensures IsSubsequence(r, rows)
    ensures forall i :: 0 <= i < |r| ==> !SameIgnoringCase(r[i].kind, FraSum)
    ensures forall i :: 0 <= i < |rows| && !SameIgnoringCase(rows[i].kind, FraSum) ==> rows[i] in r
    ensures r == Keep(rows, (row: Row) => !SameIgnoringCase(row.kind, FraSum))
  {
    forall row: Row { PostableIffNotFraSum(row); }
    KeepSamePredicate(rows, IsPostable, (row: Row) => !SameIgnoringCase(row.kind, FraSum));
    Keep(rows, IsPostable)
  }

  /** The row's account has no reconciled mark set (an absent key counts as not reconciled). */
  predicate NotReconciledIn(m: Recon, row: Row) {
    !IsSet(View(m, row.number).reconciled)
  }

  predicate NotReviewedIn(m: Recon, row: Row) {
    !IsSet(View(m, row.number).reviewed)
  }

  /** A row passes the selected filters: every selected filter's condition holds of it. */
  predicate Passes(m: Recon, filters: set<MarkFilter>, row: Row) {
    && (NotReconciled in filters ==> NotReconciledIn(m, row))
    && (NotReviewed in filters ==> NotReviewedIn(m, row))
  }

  /**
   * The two filters applied one after the other, as the table code does.
   * The result is the single mask of `Passes`: rows failing a selected filter
   * are dropped and the others keep their order.
   */
  function ApplyMarkFilters(m: Recon, rows: seq<Row>, filters: set<MarkFilter>): (r: seq<Row>)
    ensures r == Keep(rows, row => Passes(m, filters, row))
    ensures IsSubsequence(r, rows)
    ensures forall i :: 0 <= i < |rows| ==> (rows[i] in r <== Passes(m, filters, rows[i]))
    ensures forall i :: 0 <= i < |r| ==> Passes(m, filters, r[i])
    ensures filters == {} ==> r == rows
  {
    var afterReconciled := if NotReconciled in filters then Keep(rows, row => NotReconciledIn(m, row)) else rows;
    var r := if NotReviewed in filters then Keep(afterReconciled, row => NotReviewedIn(m, row)) else afterReconciled;
    FiltersAreOneMask(m, rows, filters);
    r
  }

  lemma FiltersAreOneMask(m: Recon, rows: seq<Row>, filters: set<MarkFilter>)
    ensures var afterReconciled := if NotReconciled in filters then Keep(rows, row => NotReconciledIn(m, row)) else rows;
            var r := if NotReviewed in filters then Keep(afterReconciled, row => NotReviewedIn(m, row)) else afterReconciled;
            r == Keep(rows, row => Passes(m, filters, row))
  {
    var pass := row => Passes(m, filters, row);
    var rec := row => NotReconciledIn(m, row);
    var rev := row => NotReviewedIn(m, row);
    if NotReconciled in filters && NotReviewed in filters {
      KeepKeep(rows, rec, rev, pass);
    } else if NotReconciled in filters {
      KeepSamePredicate(rows, rec, pass);
    } else if NotReviewed in filters {
      KeepSamePredicate(rows, rev, pass);
    } else {
      KeepAll(rows, pass);
    }
  }

  lemma {:induction false} KeepAll<T>(s: seq<T>, p: T -> bool)
    requires forall x :: p(x)
    ensures Keep(s, p) == s
    decreases |s|
  {
    if |s| > 0 {
      KeepAll(s[1..], p);
      assert s == [s[0]] + s[1..];
    }
  }
}
