/**
 * pkg/web/error.go: the problem-details record the handlers answer with,
 * its text form, and the mapping from a status code to a title.
 */
module WebError {
  import opened Wrappers

  const BadRequestTitle: string := "httperror:badrequest"
  const UnauthorizedTitle: string := "httperror:unauthorized"
  const ForbiddenTitle: string := "httperror:forbidden"
  const InternalErrorTitle: string := "httperror:internalerror"
  const NotFoundTitle: string := "httperror:notfound"
  const UnspecifiedErrorTitle: string := "httperror:unspecifiederror"

  const UnspecifiedDetail: string := "error details not specified; look into this!"

  /** A Go error value: nil, or an error with a message. */
  datatype Cause = NoCause | Cause(message: string)

  /** web.ErrInvalidUserID */
  const ErrInvalidUserID: Cause := Cause("invalid user ID")

  /** ApiError; `underlying` is never serialised (json:"-"). */
  datatype ApiError = ApiError(status: int, title: string, detail: string, underlying: Cause) {

    /** ApiError.Error(): "<title>: <detail>". */
    function Error(): (s: string)
      ensures |s| == |title| + 2 + |detail|
      ensures s[..|title|] == title && s[|title|..|title| + 2] == ": " && s[|title| + 2..] == detail
    {
      title + ": " + detail
    }
  }

  /** The statuses ErrorResponse knows a title for. */
  predicate KnownStatus(status: int) {
    status in {400, 401, 403, 404, 500}
  }

  /** The switch in ErrorResponse: the record a status and detail are answered with. */
  function ApiErrorFor(status: int, detail: string, err: Cause): (e: ApiError)
    ensures KnownStatus(e.status)
    ensures e.underlying == err
    ensures KnownStatus(status) ==> e.status == status && e.detail == detail
    ensures !KnownStatus(status) ==>
      e.status == 500 && e.title == UnspecifiedErrorTitle && e.detail == UnspecifiedDetail
  {
    match status
    case 400 => ApiError(status, BadRequestTitle, detail, err)
    case 401 => ApiError(status, UnauthorizedTitle, detail, err)
    case 403 => ApiError(status, ForbiddenTitle, detail, err)
    case 404 => ApiError(status, NotFoundTitle, detail, err)
    case 500 => ApiError(status, InternalErrorTitle, detail, err)
    case _ => ApiError(500, UnspecifiedErrorTitle, UnspecifiedDetail, err)
  }

  /**
   * What ErrorResponse does: it writes `status'` with the JSON text of
   * apiError.Error() as the body, and logs the underlying error.
   */
  datatype Reply = Reply(status: int, body: string, logged: Cause)

  function ErrorResponse(status: int, detail: string, err: Cause): (r: Reply)
    ensures KnownStatus(r.status)
    ensures r.logged == err
    ensures r.body == ApiErrorFor(status, detail, err).Error()
  {
    var e := ApiErrorFor(status, detail, err);
    Reply(e.status, e.Error(), e.underlying)
  }

  /** The title each known status is answered with. */
  lemma TitlesOfKnownStatuses(detail: string, err: Cause)
    ensures ApiErrorFor(400, detail, err).title == BadRequestTitle
    ensures ApiErrorFor(401, detail, err).title == UnauthorizedTitle
    ensures ApiErrorFor(403, detail, err).title == ForbiddenTitle
    ensures ApiErrorFor(404, detail, err).title == NotFoundTitle
    ensures ApiErrorFor(500, detail, err).title == InternalErrorTitle
  {
  }

  /** The body never depends on the underlying error: it is logged, not sent. */
  lemma BodyIgnoresUnderlying(status: int, detail: string, e1: Cause, e2: Cause)
    ensures ErrorResponse(status, detail, e1).body == ErrorResponse(status, detail, e2).body
    ensures ErrorResponse(status, detail, e1).status == ErrorResponse(status, detail, e2).status
  {
  }

  /** The titles contain no blank, so the first ": " of an error text ends the title. */
  predicate NoBlank(s: string) {
    forall i :: 0 <= i < |s| ==> s[i] != ' '
  }

  /** The inverse of Error(): split at the first ": " into title and detail. */
  function SplitErrorText(s: string): (r: Option<(string, string)>)
    decreases |s|
  {
    if |s| < 2 then None
    else if s[0] == ':' && s[1] == ' ' then Some(([], s[2..]))
    else
      match SplitErrorText(s[1..])
      case None => None
      case Some((t, d)) => Some(([s[0]] + t, d))
  }

  lemma {:induction false} SplitJoin(title: string, detail: string)
    requires NoBlank(title)
    ensures SplitErrorText(title + ": " + detail) == Some((title, detail))
  {
    var s := title + ": " + detail;
    if title == [] {
      assert s[2..] == detail;
    } else {
      assert title[0] != ' ';
      assert s[1..] == title[1..] + ": " + detail;
      SplitJoin(title[1..], detail);
      assert [s[0]] + title[1..] == title;
    }
  }

  lemma TitlesHaveNoBlank()
    ensures NoBlank(BadRequestTitle) && NoBlank(UnauthorizedTitle) && NoBlank(ForbiddenTitle)
    ensures NoBlank(NotFoundTitle) && NoBlank(InternalErrorTitle) && NoBlank(UnspecifiedErrorTitle)
  {
  }

  /** Every error body reads back as the title and detail it was made from. */
  lemma ErrorTextRoundTrip(status: int, detail: string, err: Cause)
    ensures var e := ApiErrorFor(status, detail, err);
            SplitErrorText(ErrorResponse(status, detail, err).body) == Some((e.title, e.detail))
  {
    TitlesHaveNoBlank();
    var e := ApiErrorFor(status, detail, err);
    SplitJoin(e.title, e.detail);
  }

  /** Two replies with the same body came from the same status (after mapping) and detail. */
  lemma BodyDeterminesReply(s1: int, d1: string, e1: Cause, s2: int, d2: string, e2: Cause)
    requires ErrorResponse(s1, d1, e1).body == ErrorResponse(s2, d2, e2).body
    ensures ErrorResponse(s1, d1, e1).status == ErrorResponse(s2, d2, e2).status
    ensures KnownStatus(s1) && KnownStatus(s2) ==> s1 == s2 && d1 == d2
  {
    ErrorTextRoundTrip(s1, d1, e1);
    ErrorTextRoundTrip(s2, d2, e2);
  }
}
