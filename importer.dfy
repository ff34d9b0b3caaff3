/**
 * `showImporter` (client/frame.js): before offering imported pages, every
 * page without a journal gets a one-entry journal `[{date}]` so that the
 * importer can compute dates; then an "Import from Frame" page is built that
 * reports the number of pages and carries them in an `importer` item.
 * `wiki.newPage`, `wiki.showResult` and `new Date()` are outside the model:
 * the built page and its display options are returned, the date is a parameter.
 */
module Importer {
  import opened Wrappers
  import opened Json
  import Text

  /** The journal stamped onto a page that has none: `[{date}]`. */
  function DefaultJournal(date: Value): Value
  {
    Arr([Obj(map["date" := date])])
  }

  /** `typeof p.journal === "undefined" || p.journal == null` */
  predicate LacksJournal(page: Value)
    requires page != Null
  {
    var j := Property(page, "journal");
    j.None? || j.value == Null
  }

  /** One page after the backfill. Assigning `journal` on a primitive has no effect. */
  function Backfilled(page: Value, date: Value): (r: Value)
    requires page != Null
    ensures page.Obj? && LacksJournal(page) ==>
      && r.Obj?
      && r.fields.Keys == page.fields.Keys + {"journal"}
      && r.fields["journal"] == DefaultJournal(date)
      && |r.fields["journal"].items| == 1
      && forall k :: k in page.fields && k != "journal" ==> r.fields[k] == page.fields[k]
    ensures !(page.Obj? && LacksJournal(page)) ==> r == page
    ensures r != Null && (r.Obj? ==> !LacksJournal(r))
  {
    if page.Obj? && LacksJournal(page) then Obj(page.fields["journal" := DefaultJournal(date)])
    else page
  }

  /** Backfilling twice is backfilling once, so a page reachable under two keys is stamped once. */
  lemma BackfillIdempotent(page: Value, date: Value)
    requires page != Null
    ensures Backfilled(Backfilled(page, date), date) == Backfilled(page, date)
  {
    var once := Backfilled(page, date);
    if once.Obj? {
      assert !LacksJournal(once);
    }
  }

  /** The `pages` object of an import message, updated in place. */
  class ImportBatch {
    var pages: map<string, Value>

    constructor (pages: map<string, Value>)
      ensures this.pages == pages
    {
      this.pages := pages;
    }

    /** The loop over `Object.values(pages)` that stamps a journal where one is missing. */
    method Backfill(date: Value)
      requires forall k :: k in pages ==> pages[k] != Null
      modifies this
      ensures pages.Keys == old(pages).Keys
      ensures forall k :: k in pages ==> pages[k] == Backfilled(old(pages)[k], date)
    {
      var todo := pages.Keys;
      while todo != {}
        invariant todo <= pages.Keys
        invariant pages.Keys == old(pages).Keys
        invariant forall k :: k in todo ==> pages[k] == old(pages)[k]
        invariant forall k :: k in pages && k !in todo ==> pages[k] == Backfilled(old(pages)[k], date)
        decreases todo
      {
        var k :| k in todo;
        var p := pages[k];
        if p.Obj? && LacksJournal(p) {
          pages := pages[k := Obj(p.fields["journal" := DefaultJournal(date)])];
        }
        todo := todo - {k};
      }
    }
  }

  /** The page `showImporter` builds: title, one paragraph, one `importer` item. */
  datatype ImportPage = ImportPage(title: string, paragraph: string, item: Value)

  /** The page handed to `wiki.showResult`, with its display anchor (`None` for `{}`). */
  datatype Shown = Shown(page: ImportPage, anchor: Option<seq<nat>>)

  const ImportTitle: string := "Import from Frame"

  method ShowImporter(batch: ImportBatch, anchor: Option<seq<nat>>, date: Value) returns (shown: Shown)
    requires forall k :: k in batch.pages ==> batch.pages[k] != Null
    modifies batch
    ensures batch.pages.Keys == old(batch.pages).Keys
    ensures forall k :: k in batch.pages ==> batch.pages[k] == Backfilled(old(batch.pages)[k], date)
    ensures shown.page.title == ImportTitle
    ensures shown.page.paragraph == "Import of " + Text.NatToString(|old(batch.pages)|) + " pages."
    ensures shown.page.item == Obj(map["type" := Str("importer"), "pages" := Obj(batch.pages)])
    ensures shown.anchor == anchor
  {
    batch.Backfill(date);
    var count := |batch.pages|;
    var paragraph := "Import of " + Text.NatToString(count) + " pages.";
    var item := Obj(map["type" := Str("importer"), "pages" := Obj(batch.pages)]);
    shown := Shown(ImportPage(ImportTitle, paragraph, item), anchor);
  }
}
