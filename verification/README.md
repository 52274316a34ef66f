# Reconciliation marks — a Dafny model

The month-end reconciliation tracker shows a trial balance one row per
account. Each row has a document-link text box and two checkboxes,
"Afstemt" (reconciled) and "Review" (reviewed), plus a status caption.
The marks are kept in a `recon` dictionary keyed by the account number as
text. Each value is a mark record: an optional `doc_link`, and for each of
the two marks an optional flag with an optional `*_by`/`*_at` stamp.

This project models the logic of that table as pure functions:

- `wrappers.dfy` — `Option`, standing for a dictionary key that may be missing.
- `marks.dfy` (module `Marks`) — the mark record and the per-account update.
  The update is the transition table of each mark, the link replacement, and
  the write-back of the record only when something changed.
- `rows.dfy` (module `Rows`) — the account mask that hides "Fra-sum" rows, and
  the two sidebar filters "Kun ikke afstemt" and "Kun ikke reviewet".
- `status.dfy` (module `Status`) — the status caption of a row.
- `render.dfy` (module `Render`) — one run of the row loop as a method, and
  any sequence of updates as a fold.

Modelling choices:

- The widget values are an input. `inputs` maps an account key to the values
  the user set (Streamlit keys its widgets by account key). An account
  without an entry shows its stored values, so its update changes nothing.
- The top-level `user` entry of the state is an `Option<string>` parameter.
  A missing entry means `"Current User"`. The timestamp `datetime.now()` is
  an opaque string parameter `now`.
- `reconciled` and `reviewed` run the same code, so one `FlagMark` datatype
  and one `UpdateFlag` function serve both.
- The account-type mask lower-cases ASCII letters only. No non-ASCII character
  lower-cases to a letter of "fra-sum", so the comparison with "fra-sum" is
  the same as with full lower-casing.
- `Render.RenderRows` draws each caption as the code does, with
  `Status.Caption` and the record as it stands before the row's update.
  `Status.SettledCaption` is the corrected caption (see Findings).

## Model

| member | source | states |
|---|---|---|
| Marks.UpdateFlag | app.py:138-154 | After the update the mark equals the checkbox value. false→true sets it and stamps it with the actor and the time. true→false sets it false and removes both stamp fields. An unchanged value leaves the mark and its stamp untouched. A consistent stamp stays consistent. |
| Marks.UpdateRecord | app.py:133-154 | Afterwards the record shows exactly the widget values. The link is replaced only when it differs from the stored one (missing counts as ""). Each mark depends only on its own checkbox, so a reviewed change never alters the reconciled fields or the link. A record matching the widgets is returned unchanged. |
| Marks.UpdateMarks | app.py:112-157 | The key's stored view equals the widget values afterwards. The map is written only when something differs, and then the key holds the updated record. A newly set mark carries the state's user (default "Current User") and the time. No other key changes, no key is removed, and well-formed maps stay well-formed. |
| Marks.UpdateMarksIdempotent | app.py:133-157 | Running the update again with the same widget values changes nothing, whatever the new user and time. |
| Marks.UntouchedKeyStaysAbsent | app.py:113-114 | An absent key whose widgets show the defaults (empty link, both unticked) is not created. |
| Marks.TickThenUntick | app.py:138-144 | Ticking then unticking "reconciled" on a fresh account leaves `reconciled` false with no stamp, and the reviewed mark untouched. |
| Rows.KeepKeep | app.py:75-80 | Masking with one predicate and then another equals masking once with their conjunction. |
| Rows.ApplyMarkFilters | app.py:75-80 | The two filters applied one after the other equal one mask by "every selected filter holds". A kept row has no reconciled (or reviewed) mark set when that filter is selected. Every row passing the filters is kept. Order is preserved, and with no filter selected every row is kept. |
| Rows.LowerEqualsIffSameIgnoringCase | app.py:98 | Lower-casing a string and comparing it with a lower-case word is the same as comparing the two without regard to ASCII letter case. |
| Rows.PostableIffNotFraSum | app.py:98 | A row is hidden exactly when its account type spells "fra-sum" in any letter case. |
| Rows.AccountRows | app.py:98-99 | The account rows are exactly the mask of "type is not \"fra-sum\" in any case" over the sheet. Every such row is kept, as many times as it occurs, and sheet order is preserved. |
| Status.Caption | app.py:125-130 | The caption is the dash exactly when no box is ticked. A ticked "Afstemt" puts its stamp first (actor, or "(ukendt)", then the time), and with only that box ticked the caption is exactly that half. A ticked "Review" adds the "• Reviewet af" half after it. |
| Status.CaptionBeforeUpdateShowsUnknown | app.py:124-154 | As written, on a well-formed record, a box ticked in this pass shows "(ukendt)". A freshly ticked "Afstemt" begins the caption with "Afstemt af (ukendt) ". A freshly ticked "Review" ends it with "• Reviewet af (ukendt) ". Yet the same pass stamps that mark with the actor. |
| Status.SettledCaption | app.py:125-130 | The caption drawn from the record this pass leaves. On any record, a box ticked in this pass shows the actor and time just stamped: the caption begins (reconciled) or ends (reviewed) with that half, and is exactly it when only that box is ticked. With both boxes ticked the caption is the reconciled half followed by the reviewed half. For a well-formed record the caption is exactly the halves of the ticked boxes with their real stamps, so no ticked box shows "(ukendt)". The dash appears exactly when nothing is ticked. |
| Status.FreshTickExample | app.py:125-142 | On a fresh account, ticking "Afstemt" shows "Afstemt af (ukendt)" as written and "Afstemt af Current User <time>" once settled. |
| Render.RenderRows | app.py:96-157 | The visible rows are the non-"Fra-sum" rows passing the filters, judged against the marks at the start. Every visible account the user edited ends exactly as one mark update with its widget values leaves it. That means the same stamps, with the key created only on change, and storing exactly its widget values. Every other account is unchanged and no key is created for it. No key is removed, and stamps stay consistent with their marks. A caption is the dash exactly when no box is ticked. The first row of an account shows the caption read from the record before the run. |
| Render.PassesKeepStamps | app.py:138-154 | Any sequence of updates keeps every `*_by`/`*_at` stamp present exactly when its mark is set. |
| Render.StampsFromEmpty | app.py:138-154 | Starting from no marks, after any sequence of updates the stamps are present exactly when their mark is set. |
| Render.ApplyAllConcat | app.py:112-157 | Applying two runs of updates one after the other is applying their concatenation. |
| Render.LastPassWins | app.py:133-157 | After any sequence of updates, an account stores the widget values of the last update applied to it, whatever updates to other accounts follow. |
| Render.OtherPassesLeaveKey | app.py:112-157 | Updates to other accounts never change an account's record and never create its key. |

## Findings

| source | as written | input that shows it | evidently intended | confidence | as-written member | corrected member |
|---|---|---|---|---|---|---|
| app.py:125-130 | The status caption is built from the record as it was before the same pass writes the new stamp (lines 132-157). | Fresh account, tick "Afstemt": the caption reads "Afstemt af (ukendt)" while the record now holds "Current User" and the time. | The caption shows who marked the account and when, as stored. | medium; not executed | Status.CaptionBeforeUpdateShowsUnknown | Status.SettledCaption |

## Left out

- Loading and saving the state file (`load_state`, `save_state`, the dump after the loop): file I/O and JSON. A missing or unparsable file reads as an empty state; the model starts from any `Recon` map.
- Record keys outside `doc_link`, `reconciled*` and `reviewed*` are not modelled. The code never reads or writes others.
- Marks of non-boolean JSON type are not modelled: a flag is `Option<bool>`.
- Upload handling and `last_uploaded`, including carrying `recon` over on re-upload: outside the mark update.
- Reading the spreadsheet, the column check, numeric coercion of account numbers, and the two sort orders: spreadsheet-library plumbing. Rows come in already ordered, with the account number and type already turned to text.
- Grouping by reporting category: it calls the same row loop per group on the shared map. The model covers one call.
- The balance total and group subtotals: floating-point sums.
- Widget drawing and page layout: UI only. The widget values are inputs.
- Streamlit raises an error when two rows share an account key (duplicate widget key). The model does not stop there: a repeated key uses the same widget values again, so the repeat changes nothing.
- Render.RenderRows: states the caption text for the first row of each account only. A repeated account key, which Streamlit rejects, gets only the dash-or-not statement.
- Rows.ApplyMarkFilters: with both filters selected and no rows to filter, the code does not return an empty table. By pandas' mask rules, the first filter's empty mask has object type and is read as a list of column labels. The result has no "Nummer" column, so the second filter (app.py:79) raises `KeyError`. The model returns the empty sequence instead: the error is a spreadsheet-library effect, outside the filter logic.
- Render.RenderRows: for the same input (both filters selected, every row of the table or group a "Fra-sum" row), the code stops with that `KeyError` before the state is saved (app.py:160-162), and later groups are not drawn. The model returns the marks unchanged and draws no rows.
- Marks.UpdateMarks: one `now` string stands for every clock reading of the pass. The code calls `datetime.now()` separately for each mark (app.py:142, 151) and for each row. So the model makes `reconciled_at` and `reviewed_at` of one pass equal, and gives all rows of one run the same time. At a minute boundary the code may write different times.
