/** The records of the document library. A Go pointer field that may be nil is an `Option`;
    every record crosses the repository boundary as a copy, so records are values. */
module Entities {
  import opened Prelude

  const ROLE_INBOX := "inbox"
  const ROLE_FEEDS := "feeds"
  const ROLE_TRASH := "trash"

  const INBOX_ID := "folder_default_inbox"
  const FEEDS_ID := "folder_system_feeds"
  const TRASH_ID := "folder_system_trash"

  const KIND_BOOKMARK := "bookmark"
  const KIND_SCRAPED := "scraped_article"
  const KIND_RSS := "rss_item"

  const STATUS_UNREAD := "unread"

  const CONTENT_EXTRACTED := "extracted"
  const CONTENT_TRANSLATION := "translation"

  const FORMAT_HTML := "html"
  const FORMAT_MARKDOWN := "markdown"
  const FORMAT_TEXT := "text"

  const MUTATION_TITLE := "title"
  const MUTATION_CONTENT := "content"

  datatype Content = Content(
    id: string, role: string, format: string, language: Option<string>, body: string, sourceID: Option<string>)

  datatype Metadata = Metadata(
    id: string, title: string, kind: string, folderID: Option<string>,
    canonicalURL: Option<string>, sourceURL: Option<string>, language: Option<string>,
    status: string, rating: Option<int>,
    createdAt: int, updatedAt: int, publishedAt: Option<int>, readAt: Option<int>, deletedAt: Option<int>)

  datatype Document = Document(meta: Metadata, contents: seq<Content>, tagIDs: seq<string>)

  datatype Version = Version(
    id: string, documentID: string, sequence: int, mutation: string,
    title: string, contents: seq<Content>, meta: Metadata, createdAt: int)

  datatype Folder = Folder(
    id: string, parentID: Option<string>, name: string, systemRole: Option<string>,
    sortOrder: int, createdAt: int, updatedAt: int)

  datatype Tag = Tag(id: string, name: string, slug: string, createdAt: int)

  datatype Feed = Feed(
    id: string, url: string, title: Option<string>, folderID: Option<string>, enabled: bool,
    lastCheckedAt: Option<int>, createdAt: int, updatedAt: int)

  datatype FeedItem = FeedItem(
    id: string, feedID: string, documentID: string, guid: Option<string>, url: string,
    canonicalURL: Option<string>, contentHash: Option<string>, publishedAt: Option<int>, createdAt: int)

  /** What the service takes from outside: the clock, timestamp formatting, Unicode trimming and
      lower-casing, splitting into words, URL parsing, slug and language rules. Every theorem holds
      for every choice of these. `clock(n)` is the reading taken while the identifier counter
      stands at `n`. */
  datatype Env = Env(
    clock: nat -> int,
    stamp: int -> string,
    trim: string -> string,
    hasHost: string -> bool,
    webScheme: string -> bool,
    feedHostName: string -> string,
    slugify: string -> string,
    lower: string -> string,
    words: string -> seq<string>,
    languageTag: string -> bool)

  /** `optionalString`: a trimmed value, or nil when nothing is left. */
  function OptionalString(env: Env, value: string): (r: Option<string>)
    ensures r.Some? ==> r.value != ""
  {
    var trimmed := env.trim(value);
    if trimmed == "" then None else Some(trimmed)
  }
}
