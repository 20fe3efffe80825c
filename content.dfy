/**
 * The content lifecycle of app/services/content_service.py: creation,
 * processing (scrape, then summarise) with its status machine, owner-only
 * update and delete, and the per-user listing.  The database table is the
 * `rows` field of `ContentService`, in insertion order.
 */
module Contents {
  import opened Wrappers
  import opened Text
  import opened Ai

  /** The `status` column (app/models/content.py:25). */
  datatype Status = Pending | Processing | Completed | Failed

  /** A row of the `contents` table; `createdAt` is the server timestamp of the insert. */
  datatype Content = Content(
    id: int,
    userId: int,
    title: string,
    url: Option<string>,
    rawContent: Option<string>,
    contentType: string,
    summary: Option<string>,
    tags: Option<seq<string>>,
    status: Status,
    isPublic: bool,
    createdAt: int)

  /** An HTTP error raised by the service. */
  datatype Failure = Failure(statusCode: nat, detail: string)

  const UrlType: string := "url"
  const PlaceholderTitle: string := "웹페이지"
  const MissingInput: Failure := Failure(400, "URL 또는 텍스트 내용이 필요합니다")
  const NotFound: Failure := Failure(404, "컨텐츠를 찾을 수 없습니다")
  const UpdateForbidden: Failure := Failure(403, "수정 권한이 없습니다")
  const DeleteForbidden: Failure := Failure(403, "삭제 권한이 없습니다")
  const ProcessingFailed: string := "컨텐츠 처리 실패: "

  /** What the scraper reports for a URL. */
  datatype Scrape = Scraped(title: string, text: string) | ScrapeFailed(error: string)
  type Scraper = string -> Scrape

  /** Python truthiness of an optional string: present and non-empty. */
  predicate Truthy(s: Option<string>)
  {
    s.Some? && s.value != ""
  }

  /** `content.url or ""`. */
  function UrlOrEmpty(url: Option<string>): string
  {
    if Truthy(url) then url.value else ""
  }

  // ---------------------------------------------------------------------
  // Lookup by primary key

  /** The row ids are pairwise distinct. */
  ghost predicate DistinctIds(rows: seq<Content>)
  {
    forall i, j :: 0 <= i < j < |rows| ==> rows[i].id != rows[j].id
  }

  /** `get_content_by_id`: the position of the row with id `id`, if any. */
  function Find(rows: seq<Content>, id: int): (r: Option<nat>)
    ensures r.Some? ==> r.value < |rows| && rows[r.value].id == id
    ensures r.None? ==> forall i :: 0 <= i < |rows| ==> rows[i].id != id
    decreases |rows|
  {
    if rows == [] then None
    else if rows[|rows| - 1].id == id then Some(|rows| - 1)
    else Find(rows[..|rows| - 1], id)
  }

  /** With distinct ids, the row found is the only row with that id. */
  lemma {:induction false} FindUnique(rows: seq<Content>, id: int, k: nat)
    requires DistinctIds(rows)
    requires k < |rows| && rows[k].id == id
    ensures Find(rows, id) == Some(k)
  {
    assert forall j :: 0 <= j < |rows| && j != k ==> rows[j].id != id by {
      forall j | 0 <= j < |rows| && j != k
        ensures rows[j].id != id
      {
        if j < k {
          assert rows[j].id != rows[k].id;
        } else {
          assert rows[k].id != rows[j].id;
        }
      }
    }
  }

  // ---------------------------------------------------------------------
  // Processing

  /** The record after a processing run and, when it failed, the reason. */
  datatype Outcome = Outcome(content: Content, failure: Option<string>)

  /**
   * The scraping step: only for `"url"` content with a non-empty URL.  A
   * failed scrape marks the record failed; a successful one stores the
   * scraped text and replaces an empty or placeholder title.
   */
  function ScrapeStep(c: Content, scrape: Scraper): (o: Outcome)
    ensures o.failure.Some? <==> c.contentType == UrlType && Truthy(c.url) && scrape(c.url.value).ScrapeFailed?
    ensures o.failure.Some? ==> o.content == c.(status := Failed) && o.failure.value == scrape(c.url.value).error
    ensures !(c.contentType == UrlType && Truthy(c.url)) ==> o == Outcome(c, None)
    ensures o.content.(rawContent := c.rawContent, title := c.title, status := c.status) == c
    ensures o.failure.None? ==> o.content.status == c.status
    ensures o.content.title != c.title ==>
      && (c.title == "" || c.title == PlaceholderTitle)
      && c.contentType == UrlType && Truthy(c.url)
      && scrape(c.url.value).Scraped?
      && o.content.title == scrape(c.url.value).title
  {
    if c.contentType == UrlType && Truthy(c.url) then
      match scrape(c.url.value)
      case ScrapeFailed(error) => Outcome(c.(status := Failed), Some(error))
      case Scraped(title, text) =>
        var kept := if c.title == "" || c.title == PlaceholderTitle then title else c.title;
        Outcome(c.(rawContent := Some(text), title := kept), None)
    else Outcome(c, None)
  }

  /**
   * The summarising step: only when there is raw content.  Success stores
   * summary and tags and completes the record; failure marks it failed.
   */
  function SummaryStep(c: Content, model: Model): (o: Outcome)
    ensures !Truthy(c.rawContent) ==> o == Outcome(c, None)
    ensures Truthy(c.rawContent) ==>
      var s := SummarizeContent(c.rawContent.value, c.title, UrlOrEmpty(c.url), model);
      && (s.Summarized? ==> o == Outcome(c.(summary := Some(s.summary), tags := Some(s.tags), status := Status.Completed), None))
      && (s.SummaryFailed? ==> o == Outcome(c.(status := Failed), Some(s.error)))
    ensures o.content.(summary := c.summary, tags := c.tags, status := c.status) == c
    ensures c.status == Processing ==>
      o.content.status != Pending && (o.failure.Some? <==> o.content.status == Failed)
  {
    if Truthy(c.rawContent) then
      match SummarizeContent(c.rawContent.value, c.title, UrlOrEmpty(c.url), model)
      case Summarized(summary, tags, _) =>
        Outcome(c.(summary := Some(summary), tags := Some(tags), status := Status.Completed), None)
      case SummaryFailed(error) => Outcome(c.(status := Failed), Some(error))
    else Outcome(c, None)
  }

  /** The scraping part of `process_content_async`, on the record in hand. */
  method ScrapeInto(c: Content, scrape: Scraper) returns (content: Content, failure: Option<string>)
    ensures Outcome(content, failure) == ScrapeStep(c, scrape)
  {
    content := c;
    failure := None;
    if content.contentType == UrlType && Truthy(content.url) {
      var scraped := scrape(content.url.value);
      if scraped.ScrapeFailed? {
        content := content.(status := Failed);
        failure := Some(scraped.error);
        return;
      }
      content := content.(rawContent := Some(scraped.text));
      if content.title == "" || content.title == PlaceholderTitle {
        content := content.(title := scraped.title);
      }
    }
  }

  /** The summarising part of `process_content_async`, on the record in hand. */
  method SummarizeInto(c: Content, model: Model) returns (content: Content, failure: Option<string>)
    ensures Outcome(content, failure) == SummaryStep(c, model)
  {
    content := c;
    failure := None;
    if Truthy(content.rawContent) {
      var summarized := SummarizeContent(content.rawContent.value, content.title, UrlOrEmpty(content.url), model);
      if summarized.SummaryFailed? {
        content := content.(status := Failed);
        failure := Some(summarized.error);
        return;
      }
      content := content.(summary := Some(summarized.summary), tags := Some(summarized.tags), status := Status.Completed);
    }
  }

  /** `process_content_async` on a found record: mark it processing, scrape, then summarise. */
  function Process(c: Content, scrape: Scraper, model: Model): (o: Outcome)
    ensures o.content.status != Pending
    ensures o.failure.Some? <==> o.content.status == Failed
  {
    var scraped := ScrapeStep(c.(status := Processing), scrape);
    if scraped.failure.Some? then scraped
    else
      assert scraped.content.status == Processing;
      SummaryStep(scraped.content, model)
  }

  /** Processing leaves identity, owner, URL, type, visibility and creation time untouched. */
  lemma {:induction false} ProcessKeepsIdentity(c: Content, scrape: Scraper, model: Model)
    ensures var o := Process(c, scrape, model);
      && o.content.id == c.id && o.content.userId == c.userId && o.content.url == c.url
      && o.content.contentType == c.contentType && o.content.isPublic == c.isPublic
      && o.content.createdAt == c.createdAt
  {
  }

  /**
   * The title changes only when scraping succeeded and the stored title
   * was empty or the placeholder, and then it becomes the scraped title.
   */
  lemma {:induction false} ProcessTitle(c: Content, scrape: Scraper, model: Model)
    ensures var o := Process(c, scrape, model);
      o.content.title != c.title ==>
        && (c.title == "" || c.title == PlaceholderTitle)
        && c.contentType == UrlType && Truthy(c.url)
        && scrape(c.url.value).Scraped?
        && o.content.title == scrape(c.url.value).title
  {
  }

  /** A stored title that is neither empty nor the placeholder survives processing. */
  lemma {:induction false} ProcessKeepsRealTitle(c: Content, scrape: Scraper, model: Model)
    requires c.title != "" && c.title != PlaceholderTitle
    ensures Process(c, scrape, model).content.title == c.title
  {
    ProcessTitle(c, scrape, model);
  }

  /**
   * Completion means the summariser succeeded: the record then carries a
   * non-empty summary and at most five tags; a failure is reported
   * exactly when scraping or summarising failed.
   */
  lemma {:induction false} ProcessCompleted(c: Content, scrape: Scraper, model: Model)
    ensures var o := Process(c, scrape, model);
      o.content.status == Status.Completed ==>
        && o.content.summary.Some? && o.content.summary.value != ""
        && o.content.tags.Some? && |o.content.tags.value| <= MaxTags
        && o.failure.None?
  {
    var scraped := ScrapeStep(c.(status := Processing), scrape);
    if scraped.failure.None? {
      var d := scraped.content;
      if Truthy(d.rawContent) {
        var s := SummarizeContent(d.rawContent.value, d.title, UrlOrEmpty(d.url), model);
        if s.Summarized? {
          var answer := model(SummaryPrompt(d.title, Take(d.rawContent.value, MaxPromptContent), UrlOrEmpty(d.url)));
          assert Parsed(s.summary, s.tags) == Parse(answer.text);
        }
      }
    }
  }

  /**
   * With nothing to scrape and no raw content, processing stops with the
   * record still processing and nothing else changed.
   */
  lemma {:induction false} ProcessNothingToDo(c: Content, scrape: Scraper, model: Model)
    requires !(c.contentType == UrlType && Truthy(c.url)) && !Truthy(c.rawContent)
    ensures Process(c, scrape, model) == Outcome(c.(status := Processing), None)
  {
  }

  /** Text content (no scraping) is summarised from its own raw content. */
  lemma {:induction false} ProcessTextContent(c: Content, scrape: Scraper, model: Model)
    requires !(c.contentType == UrlType && Truthy(c.url)) && Truthy(c.rawContent)
    ensures var o := Process(c, scrape, model);
      && o.content.rawContent == c.rawContent
      && (o.content.status == Status.Completed || o.content.status == Failed)
  {
  }

  // ---------------------------------------------------------------------
  // Updates

  /** The attributes an update may name. */
  datatype Field = TitleField | UrlField | RawContentField | ContentTypeField
                 | SummaryField | TagsField | StatusField | IsPublicField

  /**
   * One keyword argument of `update_content`: an attribute with a value
   * that may be `None`, or a name the record does not have.
   */
  datatype Setting =
    | SetTitle(newTitle: Option<string>)
    | SetUrl(newUrl: Option<string>)
    | SetRawContent(newRawContent: Option<string>)
    | SetContentType(newContentType: Option<string>)
    | SetSummary(newSummary: Option<string>)
    | SetTags(newTags: Option<seq<string>>)
    | SetStatus(newStatus: Option<Status>)
    | SetIsPublic(newIsPublic: Option<bool>)
    | SetUnknown(name: string)

  /** The attribute `s` names, if the record has it. */
  function FieldOf(s: Setting): Option<Field>
  {
    match s
    case SetTitle(_) => Some(TitleField)
    case SetUrl(_) => Some(UrlField)
    case SetRawContent(_) => Some(RawContentField)
    case SetContentType(_) => Some(ContentTypeField)
    case SetSummary(_) => Some(SummaryField)
    case SetTags(_) => Some(TagsField)
    case SetStatus(_) => Some(StatusField)
    case SetIsPublic(_) => Some(IsPublicField)
    case SetUnknown(_) => None
  }

  /** Whether `s` names an attribute of the record and carries a value other than `None`. */
  predicate Assigning(s: Setting)
  {
    match s
    case SetTitle(v) => v.Some?
    case SetUrl(v) => v.Some?
    case SetRawContent(v) => v.Some?
    case SetContentType(v) => v.Some?
    case SetSummary(v) => v.Some?
    case SetTags(v) => v.Some?
    case SetStatus(v) => v.Some?
    case SetIsPublic(v) => v.Some?
    case SetUnknown(_) => false
  }

  /** Whether `s` gives field `f` a value. */
  predicate Assigns(s: Setting, f: Field)
  {
    Assigning(s) && FieldOf(s) == Some(f)
  }

  /** Whether some setting of `us` gives field `f` a value. */
  ghost predicate AssignedIn(us: seq<Setting>, f: Field)
  {
    exists i :: 0 <= i < |us| && Assigns(us[i], f)
  }

  /** `d` agrees with `c` on every field no setting of `us` assigns, and on id, owner and creation time. */
  ghost predicate KeepsUnassigned(c: Content, d: Content, us: seq<Setting>)
  {
    && d.id == c.id && d.userId == c.userId && d.createdAt == c.createdAt
    && (!AssignedIn(us, TitleField) ==> d.title == c.title)
    && (!AssignedIn(us, UrlField) ==> d.url == c.url)
    && (!AssignedIn(us, RawContentField) ==> d.rawContent == c.rawContent)
    && (!AssignedIn(us, ContentTypeField) ==> d.contentType == c.contentType)
    && (!AssignedIn(us, SummaryField) ==> d.summary == c.summary)
    && (!AssignedIn(us, TagsField) ==> d.tags == c.tags)
    && (!AssignedIn(us, StatusField) ==> d.status == c.status)
    && (!AssignedIn(us, IsPublicField) ==> d.isPublic == c.isPublic)
  }

  /** One `setattr`: skipped for `None` values and unknown names. */
  function Apply(c: Content, s: Setting): (d: Content)
    ensures !Assigning(s) ==> d == c
    ensures s.SetTitle? && s.newTitle.Some? ==> d.title == s.newTitle.value
    ensures s.SetIsPublic? && s.newIsPublic.Some? ==> d.isPublic == s.newIsPublic.value
    ensures s.SetStatus? && s.newStatus.Some? ==> d.status == s.newStatus.value
    ensures s.SetUrl? && s.newUrl.Some? ==> d.url == Some(s.newUrl.value)
    ensures s.SetRawContent? && s.newRawContent.Some? ==> d.rawContent == Some(s.newRawContent.value)
    ensures s.SetContentType? && s.newContentType.Some? ==> d.contentType == s.newContentType.value
    ensures s.SetSummary? && s.newSummary.Some? ==> d.summary == Some(s.newSummary.value)
    ensures s.SetTags? && s.newTags.Some? ==> d.tags == Some(s.newTags.value)
  {
    match s
    case SetTitle(v) => if v.Some? then c.(title := v.value) else c
    case SetUrl(v) => if v.Some? then c.(url := Some(v.value)) else c
    case SetRawContent(v) => if v.Some? then c.(rawContent := Some(v.value)) else c
    case SetContentType(v) => if v.Some? then c.(contentType := v.value) else c
    case SetSummary(v) => if v.Some? then c.(summary := Some(v.value)) else c
    case SetTags(v) => if v.Some? then c.(tags := Some(v.value)) else c
    case SetStatus(v) => if v.Some? then c.(status := v.value) else c
    case SetIsPublic(v) => if v.Some? then c.(isPublic := v.value) else c
    case SetUnknown(_) => c
  }

  /** The settings applied in order. */
  function ApplyAll(c: Content, us: seq<Setting>): (d: Content)
    ensures (forall i :: 0 <= i < |us| ==> !Assigning(us[i])) ==> d == c
    decreases |us|
  {
    if us == [] then c else Apply(ApplyAll(c, us[..|us| - 1]), us[|us| - 1])
  }

  /** One setting changes only the field it assigns. */
  lemma {:induction false} ApplyKeeps(c: Content, s: Setting)
    ensures KeepsUnassigned(c, Apply(c, s), [s])
  {
    var d := Apply(c, s);
    forall f | !AssignedIn([s], f)
      ensures !Assigns(s, f)
    {
      assert [s][0] == s;
    }
  }

  /** Applying settings changes only the fields some setting assigns. */
  lemma {:induction false} ApplyAllKeeps(c: Content, us: seq<Setting>)
    ensures KeepsUnassigned(c, ApplyAll(c, us), us)
    decreases |us|
  {
    if us != [] {
      var init := us[..|us| - 1];
      var last := us[|us| - 1];
      ApplyAllKeeps(c, init);
      ApplyKeeps(ApplyAll(c, init), last);
      forall f | AssignedIn(init, f)
        ensures AssignedIn(us, f)
      {
        var i :| 0 <= i < |init| && Assigns(init[i], f);
        assert us[i] == init[i];
      }
      forall f | AssignedIn([last], f)
        ensures AssignedIn(us, f)
      {
        assert [last][0] == last;
        assert us[|us| - 1] == last;
      }
    }
  }

  /** Settings with a `None` value or an unknown name can be dropped without effect. */
  function Effective(us: seq<Setting>): (r: seq<Setting>)
    ensures |r| <= |us|
    ensures forall i :: 0 <= i < |r| ==> Assigning(r[i])
    decreases |us|
  {
    if us == [] then []
    else if Assigning(us[|us| - 1]) then Effective(us[..|us| - 1]) + [us[|us| - 1]]
    else Effective(us[..|us| - 1])
  }

  lemma {:induction false} ApplyAllEffective(c: Content, us: seq<Setting>)
    ensures ApplyAll(c, Effective(us)) == ApplyAll(c, us)
    decreases |us|
  {
    if us != [] {
      var init := us[..|us| - 1];
      ApplyAllEffective(c, init);
      var e := Effective(us);
      if Assigning(us[|us| - 1]) {
        assert e[..|e| - 1] == Effective(init);
      }
    }
  }

  /** The last value given to the title wins. */
  lemma {:induction false} LastTitleWins(c: Content, us: seq<Setting>, t: string)
    ensures ApplyAll(c, us + [SetTitle(Some(t))]).title == t
  {
    assert (us + [SetTitle(Some(t))])[..|us|] == us;
  }

  // ---------------------------------------------------------------------
  // Listing

  /** Newest first. */
  ghost predicate NewestFirst(s: seq<Content>)
  {
    forall i, j :: 0 <= i < j < |s| ==> s[i].createdAt >= s[j].createdAt
  }

  /** The rows owned by `userId`, in table order. */
  function OwnedBy(rows: seq<Content>, userId: int): (r: seq<Content>)
    ensures forall i :: 0 <= i < |r| ==> r[i].userId == userId
    ensures forall x :: multiset(r)[x] == if x.userId == userId then multiset(rows)[x] else 0
    decreases |rows|
  {
    if rows == [] then []
    else
      var init := rows[..|rows| - 1];
      var last := rows[|rows| - 1];
      assert rows == init + [last];
      if last.userId == userId then OwnedBy(init, userId) + [last] else OwnedBy(init, userId)
  }

  /** `x` placed before the first row no newer than it. */
  function Insert(x: Content, s: seq<Content>): (r: seq<Content>)
    ensures multiset(r) == multiset(s) + multiset{x}
    ensures |r| == |s| + 1
    ensures r[0] == x || (s != [] && r[0] == s[0])
    decreases |s|
  {
    if s == [] || s[0].createdAt <= x.createdAt then [x] + s
    else
      var rest := Insert(x, s[1..]);
      assert s == [s[0]] + s[1..];
      [s[0]] + rest
  }

  /** Inserting into a newest-first sequence keeps it newest first. */
  lemma {:induction false} InsertNewestFirst(x: Content, s: seq<Content>)
    requires NewestFirst(s)
    ensures NewestFirst(Insert(x, s))
    decreases |s|
  {
    if s != [] && s[0].createdAt > x.createdAt {
      var rest := Insert(x, s[1..]);
      InsertNewestFirst(x, s[1..]);
      var r := [s[0]] + rest;
      assert r[1..] == rest;
      forall j | 0 < j < |r|
        ensures r[0].createdAt >= r[j].createdAt
      {
        assert rest[0].createdAt >= rest[j - 1].createdAt;
      }
    }
  }

  /** `order_by(created_at.desc())`: the rows sorted newest first. */
  function SortNewestFirst(s: seq<Content>): (r: seq<Content>)
    ensures multiset(r) == multiset(s)
    ensures NewestFirst(r)
    decreases |s|
  {
    if s == [] then []
    else
      assert s == [s[0]] + s[1..];
      InsertNewestFirst(s[0], SortNewestFirst(s[1..]));
      Insert(s[0], SortNewestFirst(s[1..]))
  }

  /** `offset(skip).limit(limit)`. */
  function Window(s: seq<Content>, skip: nat, limit: nat): (r: seq<Content>)
    ensures |r| == if skip >= |s| then 0 else if |s| - skip <= limit then |s| - skip else limit
    ensures forall i :: 0 <= i < |r| ==> r[i] == s[skip + i]
  {
    if skip >= |s| then []
    else if |s| - skip <= limit then s[skip..]
    else s[skip..skip + limit]
  }

  /** `get_user_contents` over a table. */
  function Listing(rows: seq<Content>, userId: int, skip: nat, limit: nat): (items: seq<Content>)
    ensures |items| <= limit
    ensures forall i :: 0 <= i < |items| ==> items[i].userId == userId && items[i] in rows
    ensures NewestFirst(items)
  {
    var sorted := SortNewestFirst(OwnedBy(rows, userId));
    var items := Window(sorted, skip, limit);
    forall i | 0 <= i < |items|
      ensures items[i].userId == userId && items[i] in rows
    {
      assert items[i] in multiset(sorted);
    }
    items
  }

  /** A first page large enough holds every row of the user, and no other. */
  lemma {:induction false} ListingComplete(rows: seq<Content>, userId: int, limit: nat)
    requires |OwnedBy(rows, userId)| <= limit
    ensures forall x :: multiset(Listing(rows, userId, 0, limit))[x]
                          == if x.userId == userId then multiset(rows)[x] else 0
  {
    var owned := OwnedBy(rows, userId);
    var sorted := SortNewestFirst(owned);
    assert |sorted| == |owned| by {
      assert |multiset(sorted)| == |multiset(owned)|;
    }
    assert Window(sorted, 0, limit) == sorted;
  }

  /** Consecutive pages follow each other in the sorted listing. */
  lemma {:induction false} ListingPages(rows: seq<Content>, userId: int, skip: nat, limit: nat, i: nat)
    requires i < |Listing(rows, userId, skip + limit, limit)|
    requires |Listing(rows, userId, skip, limit)| > 0
    ensures Listing(rows, userId, skip, limit)[|Listing(rows, userId, skip, limit)| - 1].createdAt
            >= Listing(rows, userId, skip + limit, limit)[i].createdAt
  {
    var sorted := SortNewestFirst(OwnedBy(rows, userId));
    assert Listing(rows, userId, skip, limit) == Window(sorted, skip, limit);
    assert Listing(rows, userId, skip + limit, limit) == Window(sorted, skip + limit, limit);
    WindowsFollow(sorted, skip, limit, i);
  }

  /** In a list sorted newest first, a window is at least as new as the next one. */
  lemma {:induction false} WindowsFollow(s: seq<Content>, skip: nat, limit: nat, i: nat)
    requires NewestFirst(s)
    requires i < |Window(s, skip + limit, limit)| && |Window(s, skip, limit)| > 0
    ensures Window(s, skip, limit)[|Window(s, skip, limit)| - 1].createdAt
            >= Window(s, skip + limit, limit)[i].createdAt
  {
    var first := Window(s, skip, limit);
    var next := Window(s, skip + limit, limit);
    assert first[|first| - 1] == s[skip + |first| - 1];
    assert next[i] == s[skip + limit + i];
  }

  // ---------------------------------------------------------------------
  // The service

  /** Keys are positive, distinct and below `nextId`. */
  ghost predicate WellKeyed(rows: seq<Content>, nextId: int)
  {
    && nextId >= 1
    && (forall i :: 0 <= i < |rows| ==> 1 <= rows[i].id < nextId)
    && DistinctIds(rows)
  }

  /** A second write to the same row overrides the first. */
  lemma {:induction false} UpdateTwice(rows: seq<Content>, k: nat, first: Content, second: Content)
    requires k < |rows|
    ensures rows[k := first][k := second] == rows[k := second]
  {
  }

  /** Rewriting a row under its own key keeps the keys well formed. */
  lemma {:induction false} ReplaceWellKeyed(rows: seq<Content>, nextId: int, k: nat, c: Content)
    requires WellKeyed(rows, nextId) && k < |rows| && c.id == rows[k].id
    ensures WellKeyed(rows[k := c], nextId)
  {
    var updated := rows[k := c];
    assert forall i :: 0 <= i < |rows| ==> updated[i].id == rows[i].id;
  }

  class ContentService {
    /** The `contents` table, in insertion order. */
    var rows: seq<Content>
    /** The next primary key the table hands out. */
    var nextId: int

    /** Keys are positive, distinct and below `nextId`. */
    ghost predicate Valid()
      reads this
    {
      WellKeyed(rows, nextId)
    }

    constructor()
      ensures Valid() && rows == [] && nextId == 1
    {
      rows := [];
      nextId := 1;
    }

    /**
     * `create_content`: refuse with 400 when neither a URL nor raw text
     * is given; otherwise insert a pending record with the given fields
     * under the next key, created at `now`.
     */
    method CreateContent(userId: int, title: string, url: Option<string>, rawContent: Option<string>,
                         contentType: string, isPublic: bool, now: int) returns (r: Result<Content, Failure>)
      requires Valid()
      modifies this
      ensures Valid()
      ensures !Truthy(url) && !Truthy(rawContent) ==>
        r == Err(MissingInput) && rows == old(rows) && nextId == old(nextId)
      ensures Truthy(url) || Truthy(rawContent) ==>
        && r == Ok(Content(old(nextId), userId, title, url, rawContent, contentType, None, None, Pending, isPublic, now))
        && rows == old(rows) + [r.value]
        && nextId == old(nextId) + 1
    {
      if !Truthy(url) && !Truthy(rawContent) {
        return Err(MissingInput);
      }
      var created := Content(nextId, userId, title, url, rawContent, contentType, None, None, Pending, isPublic, now);
      rows := rows + [created];
      nextId := nextId + 1;
      r := Ok(created);
    }

    /**
     * `process_content_async`: 404 for an unknown id; otherwise the record
     * becomes processing, is scraped and summarised, and is stored as
     * `Process` leaves it, with a 500 carrying the reason on failure.
     */
    method ProcessContent(id: int, scrape: Scraper, model: Model) returns (r: Result<Content, Failure>)
      requires Valid()
      modifies this
      ensures Valid() && nextId == old(nextId)
      ensures Find(old(rows), id).None? ==> r == Err(NotFound) && rows == old(rows)
      ensures Find(old(rows), id).Some? ==>
        var k := Find(old(rows), id).value;
        var o := Process(old(rows)[k], scrape, model);
        && rows == old(rows)[k := o.content]
        && (o.failure.Some? ==> r == Err(Failure(500, ProcessingFailed + o.failure.value)))
        && (o.failure.None? ==> r == Ok(o.content))
    {
      var found := Find(rows, id);
      if found.None? {
        return Err(NotFound);
      }
      var k := found.value;
      ghost var original := rows;
      var content := rows[k];
      content := content.(status := Processing);
      ghost var started := content;
      ReplaceWellKeyed(rows, nextId, k, content);
      rows := rows[k := content];
      var failure;
      content, failure := ScrapeInto(content, scrape);
      if failure.None? {
        content, failure := SummarizeInto(content, model);
      }
      ReplaceWellKeyed(original, nextId, k, content);
      UpdateTwice(original, k, started, content);
      rows := rows[k := content];
      if failure.Some? {
        return Err(Failure(500, ProcessingFailed + failure.value));
      }
      r := Ok(content);
    }

    /**
     * `update_content`: 404 for an unknown id, 403 for someone else's
     * record; otherwise every setting with a value is applied in order.
     */
    method UpdateContent(id: int, userId: int, updates: seq<Setting>) returns (r: Result<Content, Failure>)
      requires Valid()
      modifies this
      ensures Valid() && nextId == old(nextId)
      ensures Find(old(rows), id).None? ==> r == Err(NotFound) && rows == old(rows)
      ensures Find(old(rows), id).Some? ==>
        var k := Find(old(rows), id).value;
        && (old(rows)[k].userId != userId ==> r == Err(UpdateForbidden) && rows == old(rows))
        && (old(rows)[k].userId == userId ==>
              && r == Ok(ApplyAll(old(rows)[k], updates))
              && rows == old(rows)[k := r.value]
              && KeepsUnassigned(old(rows)[k], r.value, updates))
    {
      var found := Find(rows, id);
      if found.None? {
        return Err(NotFound);
      }
      var k := found.value;
      var content := rows[k];
      if content.userId != userId {
        return Err(UpdateForbidden);
      }
      var i := 0;
      while i < |updates|
        invariant 0 <= i <= |updates|
        invariant content == ApplyAll(rows[k], updates[..i])
      {
        assert updates[..i + 1][..i] == updates[..i];
        content := Apply(content, updates[i]);
        i := i + 1;
      }
      assert updates[..i] == updates;
      ApplyAllKeeps(rows[k], updates);
      rows := rows[k := content];
      r := Ok(content);
    }

    /**
     * `delete_content`: 404 for an unknown id, 403 for someone else's
     * record; otherwise the row is removed and the answer is `true`.
     */
    method DeleteContent(id: int, userId: int) returns (r: Result<bool, Failure>)
      requires Valid()
      modifies this
      ensures Valid() && nextId == old(nextId)
      ensures Find(old(rows), id).None? ==> r == Err(NotFound) && rows == old(rows)
      ensures Find(old(rows), id).Some? ==>
        var k := Find(old(rows), id).value;
        && (old(rows)[k].userId != userId ==> r == Err(DeleteForbidden) && rows == old(rows))
        && (old(rows)[k].userId == userId ==>
              r == Ok(true) && rows == old(rows)[..k] + old(rows)[k + 1..] && Find(rows, id).None?)
    {
      var found := Find(rows, id);
      if found.None? {
        return Err(NotFound);
      }
      var k := found.value;
      if rows[k].userId != userId {
        return Err(DeleteForbidden);
      }
      RemoveRow(rows, k);
      rows := rows[..k] + rows[k + 1..];
      r := Ok(true);
    }

    /** `get_user_contents` on the current table. */
    function UserContents(userId: int, skip: nat, limit: nat): (items: seq<Content>)
      reads this
      ensures |items| <= limit && NewestFirst(items)
      ensures forall i :: 0 <= i < |items| ==> items[i].userId == userId && items[i] in rows
    {
      Listing(rows, userId, skip, limit)
    }
  }

  /** Removing the row at `k` from a table with distinct keys leaves no row with its key, and keeps the rest distinct. */
  lemma {:induction false} RemoveRow(rows: seq<Content>, k: nat)
    requires k < |rows| && DistinctIds(rows)
    ensures var rest := rows[..k] + rows[k + 1..];
      && DistinctIds(rest)
      && (forall i :: 0 <= i < |rest| ==> rest[i].id != rows[k].id)
      && (forall i :: 0 <= i < |rest| ==> rest[i] in rows)
  {
    var rest := rows[..k] + rows[k + 1..];
    assert forall i :: 0 <= i < |rest| ==> rest[i] == rows[if i < k then i else i + 1];
  }
}
