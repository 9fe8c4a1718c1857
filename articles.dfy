/** Articles and their trending lifecycle (`ArticlePage` in content/models.py).
    Timestamps are whole seconds; the clock is passed in as `now`. */
module Articles {
  import opened Wrappers

  /** `timedelta(hours=3)`: how long a freshly published article trends. */
  const TrendingWindow: int := 3 * 60 * 60

  /** The persisted row of an article page: the fields the selection logic
      reads. `treePath` is the page's materialised path in the page tree, so
      a descendant's path extends its ancestor's. */
  datatype Article = Article(
    id: nat,
    treePath: string,
    section: string,
    live: bool,
    publicationDate: int,
    isPremium: bool,
    isFeaturedHighlight: bool,
    isTrending: bool,
    trendingUntil: Option<int>)

  /** `ArticlePage.is_currently_trending` at clock reading `now`: never when
      the flag is off, whatever the expiry holds; otherwise until and
      including the expiry instant, and forever when there is no expiry. */
  function IsCurrentlyTrending(a: Article, now: int): (r: bool)
    ensures !a.isTrending ==> !r
    ensures a.isTrending ==> (r <==> a.trendingUntil.None? || now <= a.trendingUntil.value)
  {
    if !a.isTrending then false
    else if a.trendingUntil.Some? && now > a.trendingUntil.value then false
    else true
  }

  /** Expiry is lazy but final: once an article has stopped trending, a
      later clock reading never revives it. */
  lemma ExpiryIsFinal(a: Article, t1: int, t2: int)
    requires t1 <= t2 && !IsCurrentlyTrending(a, t1)
    ensures !IsCurrentlyTrending(a, t2)
  {
  }

  /** The clock cases of the trending tests: with no expiry an article
      still trends ten hours on; with an expiry five hours on it trends at
      4h30 and has stopped at 5h01. */
  lemma TrendingClockExamples(a: Article, now: int)
    requires a.isTrending
    ensures a.trendingUntil.None? ==> IsCurrentlyTrending(a, now + 10 * 3600)
    ensures a.trendingUntil == Some(now + 5 * 3600) ==>
      IsCurrentlyTrending(a, now + 4 * 3600 + 30 * 60) && !IsCurrentlyTrending(a, now + 5 * 3600 + 60)
  {
  }

  /** The row written by the first save of a new page: a live page is armed
      to trend for three hours from `now`, whatever the editor had set; a
      draft is stored as it is. */
  function FirstSave(a: Article, now: int): Article {
    if a.live then a.(isTrending := true, trendingUntil := Some(now + TrendingWindow)) else a
  }

  /** What the first save promises: a live article trends from `now` up to
      and including `now + 3h` and not after; every other field, `isPremium`
      among them, is kept; a draft is not touched. */
  lemma FirstSaveWindow(a: Article, now: int, t: int)
    ensures a.live ==> (IsCurrentlyTrending(FirstSave(a, now), t) <==> t <= now + TrendingWindow)
    ensures !a.live ==> FirstSave(a, now) == a
    ensures FirstSave(a, now).(isTrending := a.isTrending, trendingUntil := a.trendingUntil) == a
  {
  }

  /** The columns of an article row that `save(update_fields=[...])` can
      name: `path`, `section`, `live`, `publication_date`, `is_premium`,
      `is_featured_highlight`, `is_trending` and `trending_until`. */
  datatype Column =
    | PathColumn | SectionColumn | LiveColumn | PublicationDateColumn
    | PremiumColumn | FeaturedColumn | TrendingColumn | TrendingUntilColumn

  const AllColumns: set<Column> := {PathColumn, SectionColumn, LiveColumn, PublicationDateColumn,
                                    PremiumColumn, FeaturedColumn, TrendingColumn, TrendingUntilColumn}

  /** `update_fields=['is_trending', 'trending_until']`. */
  const TrendingColumns: set<Column> := {TrendingColumn, TrendingUntilColumn}

  /** The row an `UPDATE` of the columns `cols` leaves: those columns are
      taken from `current`, every other column and the key from `stored`. */
  function Overwrite(stored: Article, current: Article, cols: set<Column>): Article {
    Article(
      stored.id,
      if PathColumn in cols then current.treePath else stored.treePath,
      if SectionColumn in cols then current.section else stored.section,
      if LiveColumn in cols then current.live else stored.live,
      if PublicationDateColumn in cols then current.publicationDate else stored.publicationDate,
      if PremiumColumn in cols then current.isPremium else stored.isPremium,
      if FeaturedColumn in cols then current.isFeaturedHighlight else stored.isFeaturedHighlight,
      if TrendingColumn in cols then current.isTrending else stored.isTrending,
      if TrendingUntilColumn in cols then current.trendingUntil else stored.trendingUntil)
  }

  /** Updating every column writes the whole current record under the
      stored key; updating none changes nothing. */
  lemma OverwriteAllOrNothing(stored: Article, current: Article)
    ensures Overwrite(stored, current, AllColumns) == current.(id := stored.id)
    ensures Overwrite(stored, current, {}) == stored
  {
  }

  /** Updating the two trending columns changes exactly those two fields of
      the stored row. */
  lemma OverwriteTrending(stored: Article, current: Article)
    ensures Overwrite(stored, current, TrendingColumns)
         == stored.(isTrending := current.isTrending, trendingUntil := current.trendingUntil)
  {
  }

  /** Why Django refuses a `save(update_fields=...)`: the object has no key
      yet (`ValueError`), or no row has its key (`DatabaseError`). */
  datatype SaveError = NoPrimaryKey | NoRowUpdated

  /** An article page object as Django holds it in memory, with `row` the
      database row last written for it (`None` while there is none). */
  class ArticlePage {
    var pk: Option<nat>
    var treePath: string
    var section: string
    var live: bool
    var publicationDate: int
    var isPremium: bool
    var isFeaturedHighlight: bool
    var isTrending: bool
    var trendingUntil: Option<int>
    var row: Option<Article>

    /** A page built by an editor, not yet saved. */
    constructor (treePath: string, section: string, live: bool, publicationDate: int,
                 isPremium: bool, isFeaturedHighlight: bool, isTrending: bool, trendingUntil: Option<int>)
      ensures pk.None? && row.None?
      ensures Record(0) == Article(0, treePath, section, live, publicationDate, isPremium,
                                   isFeaturedHighlight, isTrending, trendingUntil)
    {
      this.pk := None;
      this.treePath := treePath;
      this.section := section;
      this.live := live;
      this.publicationDate := publicationDate;
      this.isPremium := isPremium;
      this.isFeaturedHighlight := isFeaturedHighlight;
      this.isTrending := isTrending;
      this.trendingUntil := trendingUntil;
      this.row := None;
    }

    /** The row this object's fields describe under primary key `id`. */
    function Record(id: nat): Article
      reads this
    {
      Article(id, treePath, section, live, publicationDate, isPremium,
              isFeaturedHighlight, isTrending, trendingUntil)
    }

    /** Django's own `Model.save`, which `ArticlePage.save` calls. Without
        `update_fields` the whole object is written, under the key `newPk`
        the database assigns when there is none yet. An empty
        `update_fields` writes nothing. Otherwise only the named columns of
        the existing row are updated, and a missing key or a missing row is
        an error that leaves everything as it was. The object's own fields
        are never changed. */
    method WriteRow(newPk: nat, updateFields: Option<set<Column>>) returns (err: Option<SaveError>)
      modifies this
      ensures Record(0) == old(Record(0))
      ensures updateFields.None? ==>
        err.None? && pk == (if old(pk).None? then Some(newPk) else old(pk)) && row == Some(Record(pk.value))
      ensures updateFields == Some({}) ==> err.None? && pk == old(pk) && row == old(row)
      ensures updateFields.Some? && updateFields.value != {} ==> pk == old(pk)
      ensures updateFields.Some? && updateFields.value != {} && old(pk).None? ==>
        err == Some(NoPrimaryKey) && row == old(row)
      ensures updateFields.Some? && updateFields.value != {} && old(pk).Some? && old(row).None? ==>
        err == Some(NoRowUpdated) && row == old(row)
      ensures updateFields.Some? && updateFields.value != {} && old(pk).Some? && old(row).Some? ==>
        err.None? && row == Some(Overwrite(old(row).value, old(Record(pk.value)), updateFields.value))
    {
      err := None;
      if updateFields.None? {
        if pk.None? {
          pk := Some(newPk);
        }
        row := Some(Record(pk.value));
      } else if updateFields.value == {} {
        // nothing to write
      } else if pk.None? {
        err := Some(NoPrimaryKey);
      } else if row.None? {
        err := Some(NoRowUpdated);
      } else {
        row := Some(Overwrite(row.value, Record(pk.value), updateFields.value));
      }
    }

    /** `ArticlePage.save`, with `updateFields` the `update_fields` argument
        it passes on. A page that had no key before the parent save and is
        live is then armed to trend for three hours, and the two trending
        columns are written again. So only the first plain save of a new
        live page arms the window; a save of a page that already has a key
        leaves the object as it was and writes it as the parent save does;
        `isPremium` is never touched. An error of the parent save stops
        `save` before the arming. */
    method Save(newPk: nat, now: int, updateFields: Option<set<Column>>) returns (err: Option<SaveError>)
      modifies this
      ensures isPremium == old(isPremium) && live == old(live)
      ensures updateFields.None? ==>
        err.None? && pk == (if old(pk).None? then Some(newPk) else old(pk)) && row == Some(Record(pk.value))
      ensures updateFields.None? && old(pk).None? ==> Record(newPk) == FirstSave(old(Record(newPk)), now)
      ensures old(pk).Some? ==> pk == old(pk) && Record(0) == old(Record(0))
      ensures old(pk).Some? && updateFields.Some? && updateFields.value != {} ==>
        (old(row).None? ==> err == Some(NoRowUpdated) && row == old(row))
        && (old(row).Some? ==> err.None? && row == Some(Overwrite(old(row).value, old(Record(pk.value)), updateFields.value)))
      ensures updateFields == Some({}) ==>
        pk == old(pk) && row == old(row) && (err.Some? <==> old(pk).None? && old(live))
      ensures old(pk).None? && updateFields == Some({}) ==> Record(0) == FirstSave(old(Record(0)), now)
      ensures old(pk).None? && updateFields.Some? && updateFields.value != {} ==>
        err == Some(NoPrimaryKey) && pk == old(pk) && row == old(row) && Record(0) == old(Record(0))
    {
      var isNew := pk.None?;
      err := WriteRow(newPk, updateFields);
      if err.None? && isNew && live {
        isTrending := true;
        trendingUntil := Some(now + TrendingWindow);
        err := WriteRow(newPk, Some(TrendingColumns));
      }
    }
  }

  /** The editor scenario of the save test: a new live page auto-trends, is
      then marked premium and saved twice more; it stays premium, and the
      re-saves leave the three-hour window of the first save in place. */
  method PremiumSurvivesResaves(now: int, later: int) returns (page: ArticlePage)
    ensures page.row.Some? && page.row.value.isPremium
    ensures page.row.value.isTrending && page.row.value.trendingUntil == Some(now + TrendingWindow)
  {
    page := new ArticlePage("00010001", "economia", true, now, false, false, false, None);
    var err := page.Save(7, now, None);
    assert page.isTrending && !page.isPremium;
    page.isPremium := true;
    err := page.Save(8, later, None);
    err := page.Save(9, later, None);
  }

  /** The manual-trending test: a draft is saved (and so not armed), then
      marked trending with no expiry and saved with
      `update_fields=['is_trending', 'trending_until']`; its row trends and
      still trends ten hours later. */
  method ManualTrendingWithoutExpiry(now: int) returns (page: ArticlePage)
    ensures page.row.Some? && page.row.value.isTrending && page.row.value.trendingUntil.None?
    ensures IsCurrentlyTrending(page.row.value, now + 10 * 3600)
  {
    page := new ArticlePage("00010002", "clima", false, now, false, false, false, None);
    var err := page.Save(3, now, None);
    assert !page.isTrending;
    page.isTrending := true;
    page.trendingUntil := None;
    err := page.Save(4, now, Some(TrendingColumns));
  }

  /** A save naming only the trending columns does not write a premium flag
      set on the object since the last save: the row keeps the old value. */
  method PartialSaveKeepsStoredPremium(now: int) returns (page: ArticlePage)
    ensures page.isPremium && page.row.Some? && !page.row.value.isPremium
  {
    page := new ArticlePage("00010003", "economia", false, now, false, false, false, None);
    var err := page.Save(5, now, None);
    page.isPremium := true;
    err := page.Save(6, now, Some(TrendingColumns));
  }

  /** The trending columns cannot be written for a page that was never
      saved: Django refuses a `save(update_fields=...)` without a key. */
  method PartialSaveOfNewPageRefused(now: int) returns (err: Option<SaveError>)
    ensures err == Some(NoPrimaryKey)
  {
    var page := new ArticlePage("00010004", "economia", true, now, false, false, true, None);
    err := page.Save(1, now, Some(TrendingColumns));
  }
}
