/** The URL row, the contents of the database for one short code, and what the cache can hold for it. */
module UrlModel {
  import opened Options

  datatype URL = URL(id: nat, shortCode: string, originalURL: string, createdAt: int, expiresAt: Option<int>)

  /** The time to live of the not-found sentinel: one minute, in milliseconds. */
  const SENTINEL_TTL := 60000

  type Database = map<string, URL>

  function Lookup(db: Database, code: string): Option<URL> {
    if code in db then Some(db[code]) else None
  }

  /** A cached value: the not-found sentinel, a serialised URL, or bytes that do not decode. */
  datatype Cached = Sentinel | Data(url: URL) | Garbage

  /** What a reader that found `content` in the database caches. */
  function ToCache(content: Option<URL>): Cached {
    match content
    case None => Sentinel
    case Some(url) => Data(url)
  }

  function FromCache(cached: Cached): Option<URL>
    requires cached != Garbage
    ensures ToCache(FromCache(cached)) == cached
  {
    if cached.Sentinel? then None else Some(cached.url)
  }
}
