/**
 * `paginationSchema` (src/server/validation/pagination.ts): optional `limit` and `offset`
 * query strings. A missing or empty value takes the default (10 and 0); a present `limit`
 * must be a number greater than 0; a present `offset` need only be a number.
 */
module Pagination {
  import opened Common
  import opened Http
  import opened JsNumber

  datatype PageQuery = PageQuery(limit: Option<string>, offset: Option<string>)
  datatype Page = Page(limit: int, offset: int)

  const LimitMessage: string := "Limit must be a positive number"
  const OffsetMessage: string := "Offset must be a valid number"

  /** `!val` for an optional string: absent or empty. */
  predicate Blank(o: Option<string>) {
    o.None? || o.value == ""
  }

  function LimitIssues(o: Option<string>): seq<Issue> {
    if Blank(o) || (ToNumber(o.value).Int? && ToNumber(o.value).value > 0) then []
    else [Issue(["limit"], LimitMessage)]
  }

  function OffsetIssues(o: Option<string>): seq<Issue> {
    if Blank(o) || ToNumber(o.value).Int? then [] else [Issue(["offset"], OffsetMessage)]
  }

  /** The transform `val ? Number(val) : d`, applied once the refinement has passed. */
  function ValueOr(o: Option<string>, d: int): int
    requires Blank(o) || ToNumber(o.value).Int?
  {
    if Blank(o) then d else ToNumber(o.value).value
  }

  /**
   * `paginationSchema.shape.query.parseAsync`: zod checks both keys and reports every issue,
   * the limit's first; when there is none, both values are transformed.
   */
  function ParsePagination(q: PageQuery): (r: Parsed<Page>)
    ensures !r.Thrown?
    ensures r.Parsed? ==> r.value.limit > 0
    ensures r.Parsed? <==> LimitIssues(q.limit) == [] && OffsetIssues(q.offset) == []
    ensures r.Rejected? ==> r.issues == LimitIssues(q.limit) + OffsetIssues(q.offset)
  {
    var issues := LimitIssues(q.limit) + OffsetIssues(q.offset);
    if issues != [] then Rejected(issues)
    else Parsed(Page(ValueOr(q.limit, 10), ValueOr(q.offset, 0)))
  }

  /** A missing or empty limit becomes 10 and a missing or empty offset becomes 0. */
  lemma Defaults(l: Option<string>, o: Option<string>)
    requires Blank(l) && Blank(o)
    ensures ParsePagination(PageQuery(l, o)) == Parsed(Page(10, 0))
  {
  }

  /** A positive limit and any integer offset are accepted and converted to their values. */
  lemma AcceptsValues(limit: int, offset: int)
    requires limit > 0
    ensures ParsePagination(PageQuery(Some(IntToDecimal(limit)), Some(IntToDecimal(offset))))
            == Parsed(Page(limit, offset))
  {
    ToNumberOfDecimal(limit);
    ToNumberOfDecimal(offset);
  }

  /** A limit of 0 or below is rejected, whatever the offset. */
  lemma RejectsNonPositiveLimit(limit: int, o: Option<string>)
    requires limit <= 0
    ensures ParsePagination(PageQuery(Some(IntToDecimal(limit)), o)).Rejected?
    ensures ParsePagination(PageQuery(Some(IntToDecimal(limit)), o)).issues[0] == Issue(["limit"], LimitMessage)
  {
    ToNumberOfDecimal(limit);
    RejectsLimitString(IntToDecimal(limit), o);
  }

  /** A present limit that is not a number above 0 is rejected, the limit's issue first. */
  lemma RejectsLimitString(s: string, o: Option<string>)
    requires s != "" && !(ToNumber(s).Int? && ToNumber(s).value > 0)
    ensures ParsePagination(PageQuery(Some(s), o)).Rejected?
    ensures ParsePagination(PageQuery(Some(s), o)).issues[0] == Issue(["limit"], LimitMessage)
  {
    assert LimitIssues(Some(s)) == [Issue(["limit"], LimitMessage)];
  }

  /** A non-numeric offset is rejected with the offset message. */
  lemma RejectsNonNumericOffset(s: string, i: nat, l: Option<string>)
    requires i < |Trim(s)| && (IsLower(Trim(s)[i]) || IsUpper(Trim(s)[i]))
    requires Blank(l)
    ensures ParsePagination(PageQuery(l, Some(s))) == Rejected([Issue(["offset"], OffsetMessage)])
  {
    LetterMakesNaN(s, i);
  }
}
