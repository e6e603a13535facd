/**
 * Content URIs of the task provider: the two shapes the provider's matcher
 * registers (the collection `tasks` and the item `tasks/#`), and the
 * `ContentUris` helpers that append and parse a row id.
 */
module Uris {
  import opened Primitives

  /** A hierarchical URI: `scheme://authority/segment/segment/...`. */
  datatype Uri = Uri(scheme: string, authority: string, segments: seq<string>)

  const CONTENT_AUTHORITY: string := "com.google.developer.taskmaker"
  const TABLE_TASKS: string := "tasks"

  /** `content://com.google.developer.taskmaker/tasks` */
  const CONTENT_URI: Uri := Uri("content", CONTENT_AUTHORITY, [TABLE_TASKS])

  /** The codes the matcher answers with: TASKS, TASKS_WITH_ID, NO_MATCH. */
  datatype UriMatch = Tasks | TasksWithId | NoMatch

  /**
   * The provider's matcher: `<authority>/tasks` is the collection and
   * `<authority>/tasks/#` an item, where `#` stands for a segment of decimal
   * digits. The matcher looks only at the authority and the path segments.
   */
  function Match(u: Uri): (m: UriMatch)
    ensures m != NoMatch ==> u.authority == CONTENT_AUTHORITY && |u.segments| > 0 && u.segments[0] == TABLE_TASKS
    ensures m == Tasks <==> u.authority == CONTENT_AUTHORITY && u.segments == [TABLE_TASKS]
    ensures m == TasksWithId <==>
      u.authority == CONTENT_AUTHORITY && |u.segments| == 2 && u.segments[0] == TABLE_TASKS && IsDigits(u.segments[1])
  {
    if u.authority != CONTENT_AUTHORITY || |u.segments| == 0 || u.segments[0] != TABLE_TASKS then NoMatch
    else if |u.segments| == 1 then Tasks
    else if |u.segments| == 2 && IsDigits(u.segments[1]) then TasksWithId
    else NoMatch
  }

  /** `Uri.getLastPathSegment()`. */
  function LastPathSegment(u: Uri): Option<string> {
    if u.segments == [] then None else Some(u.segments[|u.segments| - 1])
  }

  /** `ContentUris.parseId`: the last segment read as a `long`, -1 when there is none. */
  function ParseId(u: Uri): (r: Result<Long>)
    ensures u.segments == [] ==> r == Ok(-1)
    ensures u.segments != [] ==> r == ParseLong(u.segments[|u.segments| - 1])
  {
    match LastPathSegment(u)
    case None => Ok(-1)
    case Some(last) => ParseLong(last)
  }

  /** `ContentUris.withAppendedId`: the base URI with the id appended as a segment. */
  function WithAppendedId(base: Uri, id: Long): (u: Uri)
    ensures u.scheme == base.scheme && u.authority == base.authority
    ensures u.segments == base.segments + [LongToString(id)]
  {
    base.(segments := base.segments + [LongToString(id)])
  }

  function JoinPath(segments: seq<string>): string {
    if segments == [] then "" else "/" + segments[0] + JoinPath(segments[1..])
  }

  /** `Uri.toString()`, as used in the provider's error messages. */
  function UriToString(u: Uri): string {
    u.scheme + "://" + u.authority + JoinPath(u.segments)
  }

  /**
   * The URI the app builds for a row (`withAppendedId(CONTENT_URI, id)`) is
   * matched as an item, and parsing it back yields the same id.
   */
  lemma ItemUriRoundTrip(id: Long)
    requires id >= 0
    ensures Match(WithAppendedId(CONTENT_URI, id)) == TasksWithId
    ensures ParseId(WithAppendedId(CONTENT_URI, id)) == Ok(id)
  {
    LongTextRoundTrip(id);
  }

  /** A negative id is written with a '-' sign, which `#` does not accept. */
  lemma NegativeItemUriUnmatched(id: Long)
    requires id < 0
    ensures Match(WithAppendedId(CONTENT_URI, id)) == NoMatch
  {
    var seg := LongToString(id);
    assert seg[0] == '-';
    assert !IsDigit(seg[0]);
  }

  /**
   * On an item URI the id parses to the digits' value when that fits in a
   * `long`, and throws NumberFormatException otherwise.
   */
  lemma ItemIdParse(u: Uri)
    requires Match(u) == TasksWithId && u.segments[1] != []
    ensures DigitsValue(u.segments[1]) <= LONG_MAX ==> ParseId(u) == Ok(DigitsValue(u.segments[1]))
    ensures DigitsValue(u.segments[1]) > LONG_MAX ==> ParseId(u) == Throws(NumberFormat(u.segments[1]))
  {
  }
}
