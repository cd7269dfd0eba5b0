/**
 * The decision logic of server/src/routes/reviews.ts outside the comment stream: the options
 * `GET /` hands to `Review.findAll`, and the gallery upload of `POST /gallery` with its
 * validation pass and its counter of finished uploads.
 */
module ReviewRoutes {
  import opened Outcomes
  import opened JsNumbers
  import opened Http
  import opened ImageFiles

  // ----------------------------------------------------------------------------
  // GET /  — list query options

  /** A query-string value as Express's query parser delivers it. */
  datatype QueryValue =
    | QString(text: string)
    /** a repeated key, `?cat=a&cat=b` */
    | QArray(items: seq<string>)
    /** a bracketed key, `?cat[x]=a` */
    | QObject

  datatype SortKey = CreatedAtDesc | LikesCountDesc

  /**
   * The parts of the `findAll` options the handler varies. `subQuery` is false exactly when a
   * limit is passed; the attributes, joins and grouping are the same for every request.
   */
  datatype ListQuery = ListQuery(order: SortKey, category: Option<string>, limit: Option<int>, subQuery: bool)

  /** The handler either returns without answering or answers with the rows `findAll` finds. */
  datatype ListOutcome = NoResponse | FindAll(query: ListQuery)

  function Lookup(query: map<string, QueryValue>, key: string): Option<QueryValue> {
    if key in query then Some(query[key]) else None
  }

  /** JavaScript truthiness of a query value: only `undefined` and the empty string are falsy. */
  predicate Truthy(v: Option<QueryValue>) {
    v.Some? && (v.value.QString? ==> v.value.text != "")
  }

  /** `items.join(",")` */
  function Join(items: seq<string>): (s: string)
    ensures |items| == 1 ==> s == items[0]
  {
    if items == [] then ""
    else if |items| == 1 then items[0]
    else Join(items[..|items| - 1]) + "," + items[|items| - 1]
  }

  /** `String(v)`, the conversion `parseInt` applies to its argument first. */
  function ToText(v: Option<QueryValue>): string {
    match v
    case None => "undefined"
    case Some(QString(text)) => text
    case Some(QArray(items)) => Join(items)
    case Some(QObject) => "[object Object]"
  }

  /** The limit `parseInt(req.query.limit)` yields. */
  function RequestedLimit(query: map<string, QueryValue>): (limit: Option<int>)
    ensures limit.Some? <==> StartsWithNumeral(ToText(Lookup(query, "limit")))
    ensures "limit" !in query ==> limit.None?
  {
    ParseInt(ToText(Lookup(query, "limit")))
  }

  /** `GET /`: builds the `findAll` options step by step, or returns early on a category that is not a string. */
  method BuildListQuery(query: map<string, QueryValue>) returns (outcome: ListOutcome)
    ensures outcome.NoResponse? <==> "cat" in query && !query["cat"].QString?
    ensures outcome.FindAll? ==> (outcome.query.order == LikesCountDesc <==> "top" in query)
    ensures outcome.FindAll? ==> (outcome.query.category.Some? <==> "cat" in query && query["cat"] != QString(""))
    ensures outcome.FindAll? && outcome.query.category.Some? ==> query["cat"] == QString(outcome.query.category.value)
    ensures outcome.FindAll? && outcome.query.limit.Some? ==>
      outcome.query.limit == RequestedLimit(query) && outcome.query.limit.value != 0
    ensures outcome.FindAll? && outcome.query.limit.None? ==> RequestedLimit(query) in {None, Some(0)}
    ensures outcome.FindAll? ==> (outcome.query.subQuery <==> outcome.query.limit.None?)
  {
    var limit := ParseInt(ToText(Lookup(query, "limit")));
    var top := "top" in query;
    var category := Lookup(query, "cat");
    if Truthy(category) && !category.value.QString? {
      return NoResponse;
    }
    var order := CreatedAtDesc;
    var filter: Option<string> := None;
    var applied: Option<int> := None;
    var subQuery := true;
    if top {
      order := LikesCountDesc;
    }
    if Truthy(category) {
      filter := Some(category.value.text);
    }
    if limit.Some? && limit.value != 0 {
      applied := limit;
      subQuery := false;
    }
    outcome := FindAll(ListQuery(order, filter, applied, subQuery));
  }

  /** An absent `limit` is the text "undefined" and an object is "[object Object]": neither is a number. */
  lemma NoLimitWithoutNumeral()
    ensures RequestedLimit(map[]) == None
    ensures RequestedLimit(map["limit" := QObject]) == None
  {
    assert ToText(None) == "undefined";
    assert SpaceEnd("undefined", 0) == 0;
    assert DigitEnd("undefined", 0, 10) == 0;
    assert SpaceEnd("[object Object]", 0) == 0;
    assert !HasHexPrefixAt("[object Object]", 0);
    assert DigitEnd("[object Object]", 0, 10) == 0;
  }

  /** `?limit=0` parses, but to the falsy number 0, so no limit is applied. */
  lemma ZeroLimitParses()
    ensures RequestedLimit(map["limit" := QString("0")]) == Some(0)
  {
    ParseIntOfNumeral("0", 0);
    assert "0"[0..] == "0";
    assert ValueOf("0", 10) == 0;
  }

  /** Joining two or more items puts the first one, then a comma, in front of the join of the rest. */
  lemma {:induction false} JoinFirst(items: seq<string>)
    requires |items| >= 2
    ensures Join(items) == items[0] + "," + Join(items[1..])
  {
    var init := items[..|items| - 1];
    if |items| > 2 {
      JoinFirst(init);
      assert init[1..] == items[1..][..|items| - 2];
    }
  }

  /**
   * A repeated `limit` is joined with commas and read up to the first comma, so only its first
   * value counts.
   */
  lemma ArrayLimitReadsFirstItem(items: seq<string>)
    requires items != []
    ensures RequestedLimit(map["limit" := QArray(items)]) == ParseInt(items[0])
  {
    if |items| >= 2 {
      JoinFirst(items);
      ParseIntStopsAtComma(items[0], Join(items[1..]));
    }
  }

  // ----------------------------------------------------------------------------
  // POST /gallery

  /**
   * The first failing file's message, checking the files in order, or None when every file
   * passes.
   */
  function FirstFailure(files: seq<Option<UploadedFile>>): (error: Option<string>)
    ensures error.None? <==> forall i :: 0 <= i < |files| ==> CheckImage(files[i]).None?
    ensures error.Some? ==> exists i :: (0 <= i < |files| && CheckImage(files[i]) == error
      && forall j :: 0 <= j < i ==> CheckImage(files[j]).None?)
  {
    if files == [] then None
    else if CheckImage(files[0]).Some? then CheckImage(files[0])
    else
      var rest := FirstFailure(files[1..]);
      assert forall i :: 1 <= i < |files| ==> files[1..][i - 1] == files[i];
      assert rest.Some? ==> exists i :: (1 <= i < |files| && CheckImage(files[i]) == rest
        && forall j :: 0 <= j < i ==> CheckImage(files[j]).None?);
      rest
  }

  /** The number of files that fail their check. */
  function FailureCount(files: seq<Option<UploadedFile>>): (n: nat)
    ensures n <= |files|
    ensures n == 0 <==> forall i :: 0 <= i < |files| ==> CheckImage(files[i]).None?
  {
    if files == [] then 0
    else
      assert forall i :: 1 <= i < |files| ==> files[1..][i - 1] == files[i];
      (if CheckImage(files[0]).Some? then 1 else 0) + FailureCount(files[1..])
  }

  /** The 400s a validation pass sends, and whether it ended by throwing. */
  datatype PassOutcome = PassOutcome(replies: seq<Reply>, threw: bool)

  /**
   * The `files.map` validation pass, file by file; `answered` says whether a 400 has already
   * been sent. A failing file sends its 400, and the `send` of a second failing file throws,
   * because the headers are already sent; the exception leaves `files.map` and the handler.
   * So only the first failing file's 400 is sent, and the pass throws exactly when a second
   * file fails; once a 400 has been sent, any further failure throws at once.
   */
  function ValidationPass(files: seq<Option<UploadedFile>>, answered: bool): (pass: PassOutcome)
    ensures answered ==> pass == PassOutcome([], FailureCount(files) >= 1)
    ensures !answered ==> pass == PassOutcome(
      if FirstFailure(files).Some? then [SendText(BAD_REQUEST, FirstFailure(files).value)] else [],
      FailureCount(files) >= 2)
  {
    if files == [] then PassOutcome([], false)
    else if CheckImage(files[0]).None? then ValidationPass(files[1..], answered)
    else if answered then PassOutcome([], true)
    else
      var rest := ValidationPass(files[1..], true);
      PassOutcome([SendText(BAD_REQUEST, CheckImage(files[0]).value)] + rest.replies, rest.threw)
  }

  /**
   * The replies of the upload callbacks after the uploads have finished in the order `done`,
   * each contributing its `secure_url` (None for a failed upload): the callback that brings
   * `cloudUrls` up to `expected` entries answers with all of them.
   */
  function FanIn(expected: nat, done: seq<Option<string>>): (replies: seq<Reply>)
    ensures |replies| <= 1
    ensures |replies| == 1 <==> 1 <= expected <= |done|
  {
    if done == [] then []
    else FanIn(expected, done[..|done| - 1]) + (if |done| == expected then [JsonUrls(done)] else [])
  }

  /**
   * The counter answers once, with the urls in completion order, as soon as `expected`
   * uploads have finished, and never when no upload is expected.
   */
  lemma {:induction false} FanInAnswersOnce(expected: nat, done: seq<Option<string>>)
    ensures FanIn(expected, done) == if 1 <= expected <= |done| then [JsonUrls(done[..expected])] else []
  {
    if done != [] {
      var init := done[..|done| - 1];
      FanInAnswersOnce(expected, init);
      if expected < |done| {
        assert init[..expected] == done[..expected];
      } else if expected == |done| {
        assert done[..expected] == done;
      }
    }
  }

  /**
   * `POST /gallery` as written: the 400s of the validation pass and, unless that pass threw,
   * the answer of the upload callbacks, since every file is uploaded regardless of its check.
   */
  function GalleryRepliesAsWritten(files: Option<seq<Option<UploadedFile>>>, done: seq<Option<string>>): (replies: seq<Reply>)
    ensures files.None? ==> replies == [SendText(BAD_REQUEST, NO_FILE)]
    ensures files.Some? && FailureCount(files.value) == 0 ==> replies == FanIn(|files.value|, done)
    ensures files.Some? && FailureCount(files.value) == 1 ==>
      replies == [SendText(BAD_REQUEST, FirstFailure(files.value).value)] + FanIn(|files.value|, done)
    ensures files.Some? && FailureCount(files.value) >= 2 ==>
      replies == [SendText(BAD_REQUEST, FirstFailure(files.value).value)]
  {
    if files.None? then [SendText(BAD_REQUEST, NO_FILE)]
    else
      var pass := ValidationPass(files.value, false);
      pass.replies + (if pass.threw then [] else FanIn(|files.value|, done))
  }

  /**
   * A `return` inside the `files.map` callback only leaves the callback: a file one byte over the
   * limit draws a 400, is uploaded all the same, and the upload callback then tries to answer again.
   */
  lemma OversizedFileIsAnsweredTwice(mimetype: string, url: Option<string>)
    requires IsAcceptedType(mimetype)
    ensures GalleryRepliesAsWritten(Some([Some(UploadedFile(3145729, mimetype))]), [url])
      == [SendText(BAD_REQUEST, "Size exceeded 3 MB"), JsonUrls([url])]
  {
    SizeLimitIsInclusive(mimetype);
    var files := [Some(UploadedFile(3145729, mimetype))];
    assert files[1..] == [];
    assert FailureCount(files) == 1;
    assert FirstFailure(files) == Some("Size exceeded 3 MB");
    assert [url][..0] == [];
    assert FanIn(1, [url]) == [JsonUrls([url])];
  }

  /**
   * Two oversized files: the first draws a 400, the 400 of the second throws, and nothing is
   * uploaded, so the only answer is the first 400.
   */
  lemma SecondBadFileStopsTheHandler(mimetype: string, done: seq<Option<string>>)
    requires IsAcceptedType(mimetype)
    ensures GalleryRepliesAsWritten(Some([Some(UploadedFile(3145729, mimetype)), Some(UploadedFile(3145729, mimetype))]), done)
      == [SendText(BAD_REQUEST, "Size exceeded 3 MB")]
  {
    SizeLimitIsInclusive(mimetype);
    var bad := Some(UploadedFile(3145729, mimetype));
    var files := [bad, bad];
    assert files[1..] == [bad];
    assert [bad][1..] == [];
    assert FailureCount(files) == 2;
    assert FirstFailure(files) == Some("Size exceeded 3 MB");
  }

  /** An empty `files` array passes the `!files` test, and with no upload no callback ever answers. */
  lemma EmptyGalleryIsNeverAnswered(done: seq<Option<string>>)
    ensures GalleryRepliesAsWritten(Some([]), done) == []
  {
    FanInAnswersOnce(0, done);
  }

  /** The corrected validation: no files, or an empty list, is "No file was uploaded.", else the first failing file's message. */
  function GalleryError(files: Option<seq<Option<UploadedFile>>>): (error: Option<string>)
    ensures error.None? <==> files.Some? && files.value != [] && forall i :: 0 <= i < |files.value| ==> CheckImage(files.value[i]).None?
    ensures files.None? || files == Some([]) ==> error == Some(NO_FILE)
  {
    if files.None? || files.value == [] then Some(NO_FILE) else FirstFailure(files.value)
  }

  /** The corrected endpoint: a failed check answers 400 and uploads nothing; otherwise the counter answers. */
  function GalleryReplies(files: Option<seq<Option<UploadedFile>>>, done: seq<Option<string>>): (replies: seq<Reply>)
    ensures |replies| <= 1
    ensures GalleryError(files).Some? ==> replies == [SendText(BAD_REQUEST, GalleryError(files).value)]
    ensures GalleryError(files).None? ==> replies == FanIn(|files.value|, done)
  {
    var error := GalleryError(files);
    if error.Some? then [SendText(BAD_REQUEST, error.value)] else FanIn(|files.value|, done)
  }

  /** With the correction, every request is answered exactly once once its uploads have finished. */
  lemma GalleryAnswersOnce(files: Option<seq<Option<UploadedFile>>>, done: seq<Option<string>>)
    requires GalleryError(files).None? ==> |done| == |files.value|
    ensures |GalleryReplies(files, done)| == 1
    ensures GalleryError(files).None? ==> GalleryReplies(files, done) == [JsonUrls(done)]
  {
    if GalleryError(files).None? {
      FanInAnswersOnce(|files.value|, done);
      assert done[..|done|] == done;
    }
  }

  /** On a request that passes every check the correction changes nothing. */
  lemma CorrectionKeepsValidRequests(files: Option<seq<Option<UploadedFile>>>, done: seq<Option<string>>)
    requires GalleryError(files).None?
    ensures GalleryRepliesAsWritten(files, done) == GalleryReplies(files, done)
  {
  }

  /** The `cloudUrls` array of one gallery request and the replies its upload callbacks send. */
  class GalleryUpload {
    /** `files.length` */
    const expected: nat
    var cloudUrls: seq<Option<string>>
    var replies: seq<Reply>

    ghost predicate Valid()
      reads this
    {
      replies == FanIn(expected, cloudUrls)
    }

    constructor (fileCount: nat)
      ensures Valid()
      ensures expected == fileCount && cloudUrls == [] && replies == []
    {
      expected := fileCount;
      cloudUrls, replies := [], [];
    }

    /** The callback of one finished upload: record its url and answer once the count is reached. */
    method OnUploaded(secureUrl: Option<string>)
      requires Valid()
      modifies this
      ensures Valid()
      ensures cloudUrls == old(cloudUrls) + [secureUrl]
      ensures replies == old(replies) + (if |cloudUrls| == expected then [JsonUrls(cloudUrls)] else [])
    {
      cloudUrls := cloudUrls + [secureUrl];
      assert cloudUrls[..|cloudUrls| - 1] == old(cloudUrls);
      if |cloudUrls| == expected {
        replies := replies + [JsonUrls(cloudUrls)];
      }
    }
  }

  /** The corrected `POST /gallery`: 400 with the first failing check's message, or a counter for the uploads it starts. */
  method GalleryEndpoint(files: Option<seq<Option<UploadedFile>>>) returns (r: Result<GalleryUpload, Reply>)
    ensures r.Err? <==> GalleryError(files).Some?
    ensures r.Err? ==> r.error == SendText(BAD_REQUEST, GalleryError(files).value)
    ensures r.Ok? ==>
      && fresh(r.value) && r.value.Valid() && r.value.expected == |files.value|
      && r.value.cloudUrls == [] && r.value.replies == []
  {
    var error := GalleryError(files);
    if error.Some? {
      return Err(SendText(BAD_REQUEST, error.value));
    }
    var upload := new GalleryUpload(|files.value|);
    r := Ok(upload);
  }
}
