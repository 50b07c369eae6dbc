/** What a listing shows, in terms of the documents themselves: the score, the filters, the request. */
module ListingOutcomes {
  import opened Prelude
  import opened Entities
  import opened FolderGraph
  import opened FolderForest
  import opened Library
  import opened FeedImport
  import opened DocumentSearch
  import Sorting
  import Text

  // ----- The score -----

  /** How many of the tokens occur in the text. */
  function Found(text: string, tokens: seq<string>): (n: nat) {
    |set k | 0 <= k < |tokens| && Contains(text, tokens[k])|
  }

  lemma OneTokenMore(text: string, tokens: seq<string>)
    requires tokens != []
    ensures Found(text, tokens) ==
            Found(text, tokens[..|tokens| - 1]) + if Contains(text, tokens[|tokens| - 1]) then 1 else 0
  {
    var n := |tokens| - 1;
    var front := set k | 0 <= k < n && Contains(text, tokens[..n][k]);
    var all := set k | 0 <= k < |tokens| && Contains(text, tokens[k]);
    if Contains(text, tokens[n]) {
      assert all == front + {n};
    } else {
      assert all == front;
    }
  }

  /** The score is a hundred for each token found in the title and ten for each found in the body. */
  lemma {:induction false} ScoreCounts(title: string, body: string, tokens: seq<string>)
    requires Score(title, body, tokens).Some?
    ensures Score(title, body, tokens).value == 100 * Found(title, tokens) + 10 * Found(body, tokens)
  {
    if tokens != [] {
      ScoreCounts(title, body, tokens[..|tokens| - 1]);
      OneTokenMore(title, tokens);
      OneTokenMore(body, tokens);
    }
  }

  lemma OccursInside(text: string, part: string, before: string, after: string)
    requires Contains(text, part)
    ensures Contains(before + text + after, part)
  {
    var i :| 0 <= i <= |text| && OccursAt(text, part, i);
    var whole := before + text + after;
    assert whole[|before| + i..|before| + i + |part|] == text[i..i + |part|];
    assert OccursAt(whole, part, |before| + i);
  }

  /** A part without the separator occurs on one side of it. */
  lemma OccursOnOneSide(left: string, mark: char, right: string, part: string)
    requires mark !in part && part != "" && Contains(left + [mark] + right, part)
    ensures Contains(left, part) || Contains(right, part)
  {
    var whole := left + [mark] + right;
    var i :| 0 <= i <= |whole| && OccursAt(whole, part, i);
    forall k | i <= k < i + |part| ensures whole[k] != mark {
      assert whole[k] == whole[i..i + |part|][k - i];
    }
    assert whole[|left|] == mark;
    if i + |part| <= |left| {
      assert left[i..i + |part|] == whole[i..i + |part|];
      assert OccursAt(left, part, i);
    } else if i > |left| {
      var j := i - |left| - 1;
      assert right[j..j + |part|] == whole[i..i + |part|];
      assert OccursAt(right, part, j);
    }
  }

  lemma NothingInEmpty(token: string)
    requires token != ""
    ensures !Contains("", token)
  {
  }

  /** What occurs across a text of whole lines and a line after it occurs in one of the two. */
  lemma LineOrBefore(text: string, line: string, token: string)
    requires token != "" && '\n' !in token && text != "" && text[|text| - 1] == '\n' && Contains(text + line, token)
    ensures Contains(text, token) || Contains(line, token)
  {
    var front := text[..|text| - 1];
    assert text + line == front + ['\n'] + line && text == "" + front + "\n";
    OccursOnOneSide(front, '\n', line, token);
    if Contains(front, token) {
      OccursInside(front, token, "", "\n");
    }
  }

  lemma LineOnly(text: string, line: string, token: string)
    requires token != "" && '\n' !in token && (text == "" || text[|text| - 1] == '\n')
    requires Contains(text + line + "\n", token)
    ensures Contains(text, token) || Contains(line, token)
  {
    NothingInEmpty(token);
    assert text + line + "\n" == text + line + ['\n'] + "";
    OccursOnOneSide(text + line, '\n', "", token);
    if text == "" {
      assert text + line == line;
    } else {
      LineOrBefore(text, line, token);
    }
  }

  /** One more line behind a text of whole lines. */
  lemma OneLineMore(text: string, line: string, token: string)
    requires token != "" && '\n' !in token && (text == "" || text[|text| - 1] == '\n')
    ensures Contains(text + line + "\n", token) <==> Contains(text, token) || Contains(line, token)
  {
    if Contains(text + line + "\n", token) {
      LineOnly(text, line, token);
    }
    if Contains(text, token) {
      OccursInside(text, token, "", line + "\n");
      assert "" + text + (line + "\n") == text + line + "\n";
    }
    if Contains(line, token) {
      OccursInside(line, token, text, "\n");
    }
  }

  /** The text searched for a document finds a word exactly if some content of the document has it: the
      separators between the contents neither hide a word nor make one up. */
  lemma {:induction false} SearchesContents(contents: seq<Content>, token: string)
    requires token != "" && '\n' !in token
    ensures Contains(SearchBody(contents), token) <==> exists c :: c in contents && Contains(c.body, token)
  {
    NothingInEmpty(token);
    if contents != [] {
      var front, last := contents[..|contents| - 1], contents[|contents| - 1];
      assert contents == front + [last];
      SearchesContents(front, token);
      OneLineMore(SearchBody(front), last.body, token);
    }
  }

  // ----- The filters -----

  /** The document has what the filters ask of it. */
  predicate Fits(s: State, f: Filters, d: Document) {
    && (d.meta.deletedAt.Some? ==> f.includeDeleted)
    && (f.status != "" ==> d.meta.status == f.status)
    && (f.kind != "" ==> d.meta.kind == f.kind)
    && (f.ratingMin >= 1 ==> d.meta.rating.Some? && d.meta.rating.value >= f.ratingMin)
    && (f.tag != "" ==> exists t :: t in d.tagIDs && t in s.tags && s.tags[t].slug == f.tag)
  }

  /** It lies where the filters look: in the folder named, or, if asked, anywhere below it; without a folder
      anywhere but in Trash, unless Trash is asked for. */
  ghost predicate LiesRight(s: State, f: Filters, d: Document) {
    if f.folderID != "" then
      && d.meta.folderID.Some?
      && (d.meta.folderID.value == f.folderID
          || (f.includeDescendants && d.meta.folderID.value in s.folders
              && Reaches(s.folders, d.meta.folderID.value, f.folderID)))
    else d.meta.folderID.Some? && RoleAbove(s.folders, d.meta.folderID.value, "trash") ==> f.includeTrash
  }

  /** Every word of the query occurs in its title or in its text. */
  predicate HasWords(env: Env, query: string, d: Document) {
    var title, body := env.lower(d.meta.title), env.lower(SearchBody(d.contents));
    forall w | w in env.words(env.lower(query)) :: Contains(title, w) || Contains(body, w)
  }

  lemma MatchesWhen(s: State, f: Filters, d: Document)
    requires Inv(s)
    ensures Matches(s.folders, s.tags, d, f, FilterFolders(s.folders, f)) <==> Fits(s, f, d) && LiesRight(s, f, d)
  {
    FoldersSound(s);
    if d.meta.folderID.Some? {
      RoleWalkFindsRoles(s.folders, d.meta.folderID.value, "trash");
    }
    TagSlugs(s, d.tagIDs, f.tag);
  }

  lemma WantedWhen(env: Env, s: State, f: Filters, d: Document)
    requires Inv(s)
    ensures Wanted(env, s, f, d) <==> Fits(s, f, d) && LiesRight(s, f, d) && HasWords(env, f.query, d)
  {
    MatchesWhen(s, f, d);
    var title, body, tokens := env.lower(d.meta.title), env.lower(SearchBody(d.contents)),
        env.words(env.lower(f.query));
    FoundWhenEveryTokenOccurs(title, body, tokens);
    forall w | w in tokens && DocumentScore(env, d, f.query).Some? ensures Contains(title, w) || Contains(body, w) {
      var k :| 0 <= k < |tokens| && tokens[k] == w;
    }
  }

  lemma TagSlugs(s: State, ids: seq<string>, slug: string)
    ensures HasTagSlug(s.tags, ids, slug) <==> exists t :: t in ids && t in s.tags && s.tags[t].slug == slug
  {
    if k :| 0 <= k < |ids| && ids[k] in s.tags && s.tags[ids[k]].slug == slug {
      assert ids[k] in ids;
    }
    if t :| t in ids && t in s.tags && s.tags[t].slug == slug {
      var k :| 0 <= k < |ids| && ids[k] == t;
    }
  }

  /** A stored document is listed exactly if it fits the filters, lies where they look, and has every word
      of the query; and its score is counted from those words. */
  lemma ListedWhen(env: Env, s: State, f: Filters, records: seq<Document>, id: string)
    requires Inv(s) && Enumerates(s, records)
    ensures id in IDs(Listing(env, s, f, records)) <==>
              && id in s.docs && Fits(s, f, s.docs[id]) && LiesRight(s, f, s.docs[id])
              && HasWords(env, f.query, s.docs[id])
  {
    ListingComplete(env, s, f, records, Listing(env, s, f, records), id);
    if id in s.docs {
      WantedWhen(env, s, f, s.docs[id]);
    }
  }

  lemma ListedScore(env: Env, s: State, f: Filters, records: seq<Document>, k: nat)
    requires Enumerates(s, records) && k < |Listing(env, s, f, records)|
    ensures var e := Listing(env, s, f, records)[k];
            && e.record.meta.id in s.docs && s.docs[e.record.meta.id] == e.record
            && var words := env.words(env.lower(f.query));
               e.score == 100 * Found(env.lower(e.record.meta.title), words)
                          + 10 * Found(env.lower(SearchBody(e.record.contents)), words)
  {
    var e := Listing(env, s, f, records)[k];
    ListingSorted(env, s, f, records);
    assert e in Listing(env, s, f, records);
    var d :| d in s.docs && Wanted(env, s, f, s.docs[d]) && e == EntryOf(env, f, s.docs[d]);
    ScoreCounts(env.lower(e.record.meta.title), env.lower(SearchBody(e.record.contents)),
                env.words(env.lower(f.query)));
  }

  // ----- The request -----

  /** Which requests are refused, and what the others ask for: a page of the size given if that is between
      1 and 100 and of 50 otherwise, sorted as given or by default by relevance for a query and by change
      without one. */
  lemma RequestOutcome(env: Env, f: Filters)
    ensures var r, query, sort := NormalizedFilters(env, f), env.trim(f.query), env.trim(f.sort);
            if |query| > 256 then r == Err(Validation("query must be at most 256 characters"))
            else if sort == "relevance" && query == "" then r == Err(Validation("relevance sort requires query"))
            else if sort !in {"", "relevance", "recent", "created_desc", "rating_desc"}
                then r == Err(Validation("sort is invalid"))
            else r == Ok(f.(query := query,
                            sort := if sort != "" then sort else if query == "" then "recent" else "relevance",
                            limit := if 1 <= f.limit <= 100 then f.limit else 50))
  {
  }
}
