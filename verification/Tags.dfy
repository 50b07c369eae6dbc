/** Tags: creation under a unique slug, the tag list of a document, pruning of unused tags. */
module TagOps {
  import opened Prelude
  import opened Entities
  import opened Library

  function CreateTagSpec(env: Env, s: State, name: string): (r: Result<(State, string)>) {
    var trimmed := env.trim(name);
    if trimmed == "" then Err(Validation("tag name is required"))
    else
      var slug := env.slugify(trimmed);
      if slug == "" then Err(Validation("tag slug is required"))
      else if slug in s.tagSlugs && s.tagSlugs[slug] in s.tags then Err(Conflict("tag slug already exists"))
      else
        var id := NewID(env, s.next, "tag");
        Ok((WithTag(Drawn(s), Tag(id, trimmed, slug, Now(env, Drawn(s)))), id))
  }

  /** `normalizeTagIDs`: trimmed, without blanks and repetitions; an unknown tag is an error. */
  function NormalizedTags(env: Env, tags: map<string, Tag>, ids: seq<string>): (r: Result<seq<string>>) {
    if ids == [] then Ok([])
    else
      var kept :- NormalizedTags(env, tags, ids[..|ids| - 1]);
      var id := env.trim(ids[|ids| - 1]);
      if id == "" then Ok(kept)
      else if id !in tags then Err(NotFound("tag"))
      else if id in kept then Ok(kept)
      else Ok(kept + [id])
  }

  lemma {:induction false} NormalizedTagsSound(env: Env, tags: map<string, Tag>, ids: seq<string>)
    requires NormalizedTags(env, tags, ids).Ok?
    ensures var kept := NormalizedTags(env, tags, ids).value;
            && (forall t :: t in kept <==> t in tags && t != "" && exists k | 0 <= k < |ids| :: env.trim(ids[k]) == t)
            && (forall i, j | 0 <= i < j < |kept| :: kept[i] != kept[j])
  {
    if ids != [] {
      NormalizedTagsSound(env, tags, ids[..|ids| - 1]);
      var kept, kept' := NormalizedTags(env, tags, ids).value, NormalizedTags(env, tags, ids[..|ids| - 1]).value;
      forall t ensures t in kept <==> t in tags && t != "" && exists k | 0 <= k < |ids| :: env.trim(ids[k]) == t {
        if t in kept' {
          var k :| 0 <= k < |ids| - 1 && env.trim(ids[..|ids| - 1][k]) == t;
          assert env.trim(ids[k]) == t;
        }
        if k :| t in tags && t != "" && 0 <= k < |ids| - 1 && env.trim(ids[k]) == t {
          assert env.trim(ids[..|ids| - 1][k]) == t;
        }
      }
    }
  }

  /** `normalizeTagIDs`, the loop. */
  method NormalizeTagIDs(env: Env, tags: map<string, Tag>, tagIDs: seq<string>) returns (r: Result<seq<string>>)
    ensures r == NormalizedTags(env, tags, tagIDs)
  {
    var ids: seq<string> := [];
    var seen: set<string> := {};
    for i := 0 to |tagIDs|
      invariant NormalizedTags(env, tags, tagIDs[..i]) == Ok(ids)
      invariant forall t :: t in seen <==> t in ids
    {
      assert tagIDs[..i + 1][..i] == tagIDs[..i];
      var id := env.trim(tagIDs[i]);
      if id != "" {
        if id !in tags {
          FailurePropagates(env, tags, tagIDs, i + 1);
          return Err(NotFound("tag"));
        }
        if id !in seen {
          seen := seen + {id};
          ids := ids + [id];
        }
      }
    }
    assert tagIDs[..|tagIDs|] == tagIDs;
    return Ok(ids);
  }

  lemma {:induction false} FailurePropagates(env: Env, tags: map<string, Tag>, ids: seq<string>, k: nat)
    requires k <= |ids| && NormalizedTags(env, tags, ids[..k]).Err?
    ensures NormalizedTags(env, tags, ids) == Err(NormalizedTags(env, tags, ids[..k]).error)
  {
    if k == |ids| {
      assert ids[..k] == ids;
    } else {
      assert ids[..|ids| - 1][..k] == ids[..k];
      FailurePropagates(env, tags, ids[..|ids| - 1], k);
    }
  }

  /** `removedDocumentTagIDs`: what the new list dropped, each once, in the old order. */
  method RemovedTagIDs(before: seq<string>, after: seq<string>) returns (removed: seq<string>)
    ensures forall t :: t in removed <==> t in before && t !in after
    ensures forall i, j | 0 <= i < j < |removed| :: removed[i] != removed[j]
  {
    removed := [];
    var seen: set<string> := {};
    for i := 0 to |before|
      invariant forall t :: t in removed <==> t in before[..i] && t !in after
      invariant forall t :: t in seen <==> t in removed
      invariant forall j, k | 0 <= j < k < |removed| :: removed[j] != removed[k]
    {
      if before[i] !in after && before[i] !in seen {
        seen := seen + {before[i]};
        removed := removed + [before[i]];
      }
    }
  }

  /** `TagHasDocuments`. */
  predicate TagInUse(s: State, id: string) {
    exists d | d in s.docs :: id in s.docs[d].tagIDs
  }

  /** The tags of `ids` that no document bears. */
  function UnusedTags(s: State, ids: set<string>): (u: set<string>) {
    set t | t in ids && t in s.tags && !TagInUse(s, t)
  }

  /** `deleteUnusedTags`: the unused ones go, with their slugs; no document changes. */
  function TagsPruned(s: State, ids: set<string>): (r: State) {
    var unused := UnusedTags(s, ids);
    s.(tags := s.tags - unused,
       tagSlugs := map slug | slug in s.tagSlugs && s.tagSlugs[slug] !in unused :: s.tagSlugs[slug])
  }

  lemma {:induction false} RemoveAbsent(values: seq<string>, value: string)
    requires value !in values
    ensures RemoveValue(values, value) == values
  {
    if values != [] {
      RemoveAbsent(values[1..], value);
      assert values == [values[0]] + values[1..];
    }
  }

  lemma WithoutUnusedTag(s: State, id: string)
    requires Inv(s) && id in s.tags && !TagInUse(s, id)
    ensures WithoutTag(s, id) == TagsPruned(s, {id})
  {
    TagsSound(s);
    var s' := WithoutTag(s, id);
    forall d | d in s.docs ensures s'.docs[d] == s.docs[d] {
      RemoveAbsent(s.docs[d].tagIDs, id);
    }
    assert s'.docs == s.docs;
    assert UnusedTags(s, {id}) == {id};
    assert s'.tagSlugs == TagsPruned(s, {id}).tagSlugs;
  }

  lemma PruneKeepsInv(s: State, ids: set<string>)
    requires Inv(s)
    ensures Inv(TagsPruned(s, ids))
  {
    var s' := TagsPruned(s, ids);
    forall part: Part ensures Sound(s', part) {
      assert Sound(s, part);
      if part.DocumentsPart? {
        forall d | d in s.docs ensures DocumentInv(s.next, d, s.docs[d], s.folders.Keys, s'.tags.Keys) {
          assert DocumentInv(s.next, d, s.docs[d], s.folders.Keys, s.tags.Keys);
          forall t | t in s.docs[d].tagIDs ensures t in s'.tags {
            assert TagInUse(s, t);
          }
        }
      }
    }
  }

  /** Pruning in two rounds is pruning at once: the order of deletions does not matter. */
  lemma UnusedTwice(s: State, a: set<string>, b: set<string>, s1: State)
    requires s1 == TagsPruned(s, a)
    ensures UnusedTags(s, a + b) == UnusedTags(s, a) + UnusedTags(s1, b)
    ensures s.tags - UnusedTags(s, a) - UnusedTags(s1, b) == s.tags - UnusedTags(s, a + b)
  {
    assert forall t :: TagInUse(s1, t) <==> TagInUse(s, t);
  }

  lemma SlugsTwice(slugs: map<string, string>, a: set<string>, b: set<string>)
    ensures var once := map slug | slug in slugs && slugs[slug] !in a :: slugs[slug];
            (map slug | slug in once && once[slug] !in b :: once[slug])
            == map slug | slug in slugs && slugs[slug] !in a + b :: slugs[slug]
  {
  }

  lemma PruneTwice(s: State, a: set<string>, b: set<string>)
    ensures TagsPruned(TagsPruned(s, a), b) == TagsPruned(s, a + b)
  {
    UnusedTwice(s, a, b, TagsPruned(s, a));
    SlugsTwice(s.tagSlugs, UnusedTags(s, a), UnusedTags(TagsPruned(s, a), b));
  }

  lemma CreateTagKeepsInv(env: Env, s: State, name: string, s': State, id: string)
    requires Inv(s) && CreateTagSpec(env, s, name) == Ok((s', id))
    ensures Inv(s') && id !in s.tags
  {
    DrawKeepsInv(s);
    TagsSound(s);
    NewIDFresh(env, s.next, "tag");
    var tag := s'.tags[id];
    assert tag.slug !in s.tagSlugs;
    NewTagKeepsInv(Drawn(s), tag, s');
  }

  lemma NewTagKeepsInv(s: State, tag: Tag, s': State)
    requires Inv(s) && tag.id !in s.tags && tag.slug !in s.tagSlugs && Known(s.next, tag.id)
    requires s' == WithTag(s, tag)
    ensures Inv(s')
  {
    TagsSound(s);
    DocumentsSound(s);
    DocumentsGrow(s.next, s.next, s.docs, s.folders.Keys, s.folders.Keys, s.tags.Keys, s'.tags.Keys);
    forall part: Part ensures Sound(s', part) {
      assert Sound(s, part);
    }
  }
}
