/** The two wire encodings the backend uses for ids and dates (types/mapper/mongoDbHelper). */
module MongoDb {
  import opened Wrappers

  /** An `_id`: absent or null, a plain string, or an extended-JSON `{ $oid }` wrapper. */
  datatype MongoId = IdAbsent | IdText(text: string) | IdWrapper(oid: Option<string>)

  /** A date: absent or null, an ISO string, or an extended-JSON `{ $date }` wrapper. */
  datatype MongoDate = DateAbsent | DateText(text: string) | DateWrapper(date: string)

  /** `a ?? b` on ids. */
  function CoalesceId(a: MongoId, b: MongoId): (r: MongoId)
    ensures !a.IdAbsent? ==> r == a
    ensures a.IdAbsent? ==> r == b
  {
    if a.IdAbsent? then b else a
  }

  /** `a ?? b` on dates. */
  function CoalesceDate(a: MongoDate, b: MongoDate): (r: MongoDate)
    ensures !a.DateAbsent? ==> r == a
    ensures a.DateAbsent? ==> r == b
  {
    if a.DateAbsent? then b else a
  }

  /** An optional plain-string field read as a date or id. */
  function DateOf(s: Option<string>): (d: MongoDate)
    ensures d.DateAbsent? <==> s.None?
    ensures s.Some? ==> d == DateText(s.value)
  {
    if s.Some? then DateText(s.value) else DateAbsent
  }

  function IdOf(s: Option<string>): (d: MongoId)
    ensures d.IdAbsent? <==> s.None?
    ensures s.Some? ==> d == IdText(s.value)
  {
    if s.Some? then IdText(s.value) else IdAbsent
  }

  /** `parseMongoId`: the id text, or "" when there is none. */
  function ParseMongoId(id: MongoId): (r: string)
    ensures r == "" <==> id.IdAbsent? || id == IdText("") || (id.IdWrapper? && (id.oid.None? || id.oid.value == ""))
    ensures id.IdText? ==> r == id.text
    ensures id.IdWrapper? && id.oid.Some? ==> r == id.oid.value
  {
    match id
    case IdAbsent => ""
    case IdText(s) => s
    case IdWrapper(oid) => oid.GetOr("")
  }

  /**
   * `parseMongoDate`: strings pass through untouched, a wrapper is
   * normalised by `iso` (`new Date(d).toISOString()`), absence is "".
   */
  function ParseMongoDate(d: MongoDate, iso: string -> string): (r: string)
    ensures d.DateAbsent? ==> r == ""
    ensures d.DateText? ==> r == d.text
    ensures d.DateWrapper? ==> r == iso(d.date)
  {
    match d
    case DateAbsent => ""
    case DateText(s) => s
    case DateWrapper(s) => iso(s)
  }

  /** Both encodings of the same ObjectId parse to the same id. */
  lemma IdEncodingsAgree(s: string)
    ensures ParseMongoId(IdText(s)) == ParseMongoId(IdWrapper(Some(s))) == s
  {
  }

  /** A wrapped date and its ISO rendering sent as a string parse to the same text. */
  lemma DateEncodingsAgree(s: string, iso: string -> string)
    ensures ParseMongoDate(DateWrapper(s), iso) == ParseMongoDate(DateText(iso(s)), iso)
  {
  }

  /** Parsing an id that is already the output of `parseMongoId` changes nothing. */
  lemma ParseMongoIdIdempotent(id: MongoId)
    ensures ParseMongoId(IdText(ParseMongoId(id))) == ParseMongoId(id)
  {
  }

  /** Parsing a date that is already the output of `parseMongoDate` changes nothing. */
  lemma ParseMongoDateIdempotent(d: MongoDate, iso: string -> string)
    ensures ParseMongoDate(DateText(ParseMongoDate(d, iso)), iso) == ParseMongoDate(d, iso)
  {
  }
}
