/**
 * The part of the MongoDB driver the import reads through: BSON documents,
 * collections iterated in their natural order, and typed field access.
 */
module Bson {
  import opened Nullable
  import opened Exceptions
  import opened Dates

  datatype BsonValue = BsonNull | BsonString(s: string) | BsonDate(date: Instant) | BsonOther

  /** A document maps field names to values; a field may be absent. */
  type Document = map<string, BsonValue>

  /**
   * A collection as its cursor delivers it: the documents in iteration
   * order, and optionally the position at which the cursor fails in the
   * driver. A failure at position k < |docs| is raised when the cursor is
   * asked for document k; one at position |docs| by the last `hasNext`,
   * after every document was delivered; one beyond is never reached.
   */
  datatype Collection = Collection(docs: seq<Document>, failsAt: Option<nat>)

  type Database = map<string, Collection>

  /** `MongoDatabase.getCollection`: a name with no collection behind it reads as an empty one. */
  function GetCollection(db: Database, name: string): Collection {
    if name in db then db[name] else Collection([], None)
  }

  /** `Document.getString`: null when absent or null, a ClassCastException when not a string. */
  function GetString(doc: Document, key: string): Result<Option<string>> {
    if key !in doc then Ok(None)
    else match doc[key]
      case BsonNull => Ok(None)
      case BsonString(s) => Ok(Some(s))
      case _ => Err(ForeignException(ClassCast(key)))
  }

  /** `Document.getDate`: null when absent or null, a ClassCastException when not a date. */
  function GetDate(doc: Document, key: string): Result<Option<Instant>> {
    if key !in doc then Ok(None)
    else match doc[key]
      case BsonNull => Ok(None)
      case BsonDate(d) => Ok(Some(d))
      case _ => Err(ForeignException(ClassCast(key)))
  }
}
