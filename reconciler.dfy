/**
 * The live-update reconciler: how a `bookmark_changes` broadcast is folded into
 * the list of bookmarks on screen. The dashboard and the bookmark list install
 * the same handler, so both use `Apply`.
 */
module Reconciler {
  import opened Types

  /** Every bookmark of `s` belongs to `userId`. */
  predicate AllOwned(userId: string, s: seq<Bookmark>) {
    forall b :: b in s ==> b.userId == userId
  }

  /** How many bookmarks of `s` carry the id `id`. */
  function CountId(s: seq<Bookmark>, id: string): (n: nat)
    ensures n <= |s|
    ensures n == 0 <==> forall b :: b in s ==> b.id != id
  {
    if s == [] then 0
    else (if s[0].id == id then 1 else 0) + CountId(s[1..], id)
  }

  /** The list without any bookmark whose id is `id` (the handler's `filter`). */
  function WithoutId(s: seq<Bookmark>, id: string): (r: seq<Bookmark>)
    ensures forall b :: b in r <==> b in s && b.id != id
    ensures |r| == |s| - CountId(s, id)
  {
    if s == [] then []
    else if s[0].id != id then [s[0]] + WithoutId(s[1..], id)
    else WithoutId(s[1..], id)
  }

  /** The list with every bookmark whose id is `rec.id` replaced by `rec` (the handler's `map`). */
  function ReplaceId(s: seq<Bookmark>, rec: Bookmark): (r: seq<Bookmark>)
    ensures |r| == |s|
    ensures forall i :: 0 <= i < |s| ==> r[i] == (if s[i].id == rec.id then rec else s[i])
  {
    if s == [] then []
    else [if s[0].id == rec.id then rec else s[0]] + ReplaceId(s[1..], rec)
  }

  /**
   * The broadcast handler. An owned INSERT prepends its record, a DELETE drops
   * every bookmark with the old record's id whoever owns it, an owned UPDATE
   * replaces every bookmark with the record's id; a foreign INSERT or UPDATE, a
   * payload missing the row it needs and an unknown type change nothing.
   * The result never holds a bookmark that was not on screen before unless it
   * belongs to the signed-in user.
   */
  function Apply(userId: string, current: seq<Bookmark>, p: ChangePayload): (r: seq<Bookmark>)
    ensures forall b :: b in r ==> b in current || b.userId == userId
    ensures |r| <= |current| + 1
    ensures |r| > |current| ==> p.kind == "INSERT" && p.record.Some? && p.record.value.userId == userId
    ensures |r| < |current| ==> p.kind == "DELETE" && p.oldRecord.Some?
  {
    if p.kind == "INSERT" && p.record.Some? then
      if p.record.value.userId == userId then [p.record.value] + current else current
    else if p.kind == "DELETE" && p.oldRecord.Some? then
      WithoutId(current, p.oldRecord.value.id)
    else if p.kind == "UPDATE" && p.record.Some? then
      if p.record.value.userId == userId then ReplaceId(current, p.record.value) else current
    else
      current
  }

  /** The list after the broadcasts `ps` have been delivered in order. */
  function ApplyAll(userId: string, current: seq<Bookmark>, ps: seq<ChangePayload>): (r: seq<Bookmark>)
    decreases |ps|
  {
    if ps == [] then current else ApplyAll(userId, Apply(userId, current, ps[0]), ps[1..])
  }

  /** An owned INSERT is an unconditional prepend: one more entry, the old list as the tail. */
  lemma InsertOwnedPrepends(userId: string, current: seq<Bookmark>, p: ChangePayload)
    requires p.kind == "INSERT" && p.record.Some? && p.record.value.userId == userId
    ensures Apply(userId, current, p) == [p.record.value] + current
    ensures |Apply(userId, current, p)| == |current| + 1
    ensures Apply(userId, current, p)[1..] == current
  {
  }

  /** INSERT is not deduplicated: delivering the same owned INSERT twice adds two entries with its id. */
  lemma InsertTwiceDuplicates(userId: string, current: seq<Bookmark>, p: ChangePayload)
    requires p.kind == "INSERT" && p.record.Some? && p.record.value.userId == userId
    ensures CountId(Apply(userId, Apply(userId, current, p), p), p.record.value.id)
         == CountId(current, p.record.value.id) + 2
    ensures Apply(userId, Apply(userId, current, p), p) != Apply(userId, current, p)
  {
  }

  /** An INSERT or UPDATE whose record belongs to another user leaves the list as it is. */
  lemma ForeignRecordIgnored(userId: string, current: seq<Bookmark>, p: ChangePayload)
    requires p.kind == "INSERT" || p.kind == "UPDATE"
    requires p.record.Some? && p.record.value.userId != userId
    ensures Apply(userId, current, p) == current
  {
  }

  /** A payload the handler does not act on: an unknown type, or a missing row. */
  lemma MalformedIgnored(userId: string, current: seq<Bookmark>, p: ChangePayload)
    requires p.kind !in {"INSERT", "UPDATE", "DELETE"}
          || (p.kind in {"INSERT", "UPDATE"} && p.record.None?)
          || (p.kind == "DELETE" && p.oldRecord.None?)
    ensures Apply(userId, current, p) == current
  {
  }

  /** Filtering out an id twice is filtering it out once. */
  lemma {:induction false} WithoutIdIdempotent(s: seq<Bookmark>, id: string)
    ensures WithoutId(WithoutId(s, id), id) == WithoutId(s, id)
  {
    if s != [] {
      WithoutIdIdempotent(s[1..], id);
      if s[0].id != id {
        var w := [s[0]] + WithoutId(s[1..], id);
        assert w[1..] == WithoutId(s[1..], id);
      }
    }
  }

  /** Filtering commutes with concatenation, so the survivors keep their relative order. */
  lemma {:induction false} WithoutIdConcat(a: seq<Bookmark>, b: seq<Bookmark>, id: string)
    ensures WithoutId(a + b, id) == WithoutId(a, id) + WithoutId(b, id)
  {
    if a == [] {
      assert a + b == b;
    } else {
      assert (a + b)[0] == a[0];
      assert (a + b)[1..] == a[1..] + b;
      WithoutIdConcat(a[1..], b, id);
    }
  }

  /** A list with no bookmark of that id is left exactly as it is. */
  lemma {:induction false} WithoutIdAbsent(s: seq<Bookmark>, id: string)
    requires CountId(s, id) == 0
    ensures WithoutId(s, id) == s
  {
    if s != [] {
      assert s[0] in s;
      assert CountId(s[1..], id) == 0;
      WithoutIdAbsent(s[1..], id);
      assert s == [s[0]] + s[1..];
    }
  }

  /**
   * A DELETE removes every bookmark with the old record's id, keeps the rest,
   * ignores the owner, and delivering it again changes nothing more.
   */
  lemma DeleteRemovesEveryMatch(userId: string, current: seq<Bookmark>, p: ChangePayload)
    requires p.kind == "DELETE" && p.oldRecord.Some?
    ensures var r := Apply(userId, current, p);
      && r == WithoutId(current, p.oldRecord.value.id)
      && CountId(r, p.oldRecord.value.id) == 0
      && (forall b :: b in r <==> b in current && b.id != p.oldRecord.value.id)
      && |r| == |current| - CountId(current, p.oldRecord.value.id)
      && Apply(userId, r, p) == r
  {
  }

  /** Replacing by the same record twice is replacing once. */
  lemma ReplaceIdIdempotent(s: seq<Bookmark>, rec: Bookmark)
    ensures ReplaceId(ReplaceId(s, rec), rec) == ReplaceId(s, rec)
  {
  }

  /** A list with no bookmark of the record's id is left exactly as it is. */
  lemma ReplaceIdAbsent(s: seq<Bookmark>, rec: Bookmark)
    requires CountId(s, rec.id) == 0
    ensures ReplaceId(s, rec) == s
  {
  }

  /**
   * An owned UPDATE replaces each bookmark with the record's id, in place:
   * same length, same positions, every other entry untouched; delivering it
   * again changes nothing more, and an id not on screen changes nothing.
   */
  lemma UpdateOwnedReplacesInPlace(userId: string, current: seq<Bookmark>, p: ChangePayload)
    requires p.kind == "UPDATE" && p.record.Some? && p.record.value.userId == userId
    ensures var r := Apply(userId, current, p);
      && |r| == |current|
      && (forall i :: 0 <= i < |current| ==>
            r[i] == (if current[i].id == p.record.value.id then p.record.value else current[i]))
      && Apply(userId, r, p) == r
      && (CountId(current, p.record.value.id) == 0 ==> r == current)
  {
  }

  /** Every payload except an owned INSERT is idempotent: delivering it twice is delivering it once. */
  lemma ApplyIdempotentExceptInsert(userId: string, current: seq<Bookmark>, p: ChangePayload)
    requires !(p.kind == "INSERT" && p.record.Some? && p.record.value.userId == userId)
    ensures Apply(userId, Apply(userId, current, p), p) == Apply(userId, current, p)
  {
    if p.kind == "DELETE" && p.oldRecord.Some? {
      WithoutIdIdempotent(current, p.oldRecord.value.id);
    } else if p.kind == "UPDATE" && p.record.Some? && p.record.value.userId == userId {
      ReplaceIdIdempotent(current, p.record.value);
    }
  }

  /**
   * Tenant isolation over any run of broadcasts: every bookmark on screen
   * afterwards was on screen before or belongs to the signed-in user; so a list
   * that started with only the user's bookmarks never shows anyone else's.
   */
  lemma {:induction false} ApplyAllKeepsOwnership(userId: string, current: seq<Bookmark>, ps: seq<ChangePayload>)
    ensures forall b :: b in ApplyAll(userId, current, ps) ==> b in current || b.userId == userId
    ensures AllOwned(userId, current) ==> AllOwned(userId, ApplyAll(userId, current, ps))
    decreases |ps|
  {
    if ps != [] {
      ApplyAllKeepsOwnership(userId, Apply(userId, current, ps[0]), ps[1..]);
    }
  }
}
