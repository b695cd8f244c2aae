/**
 * Tag normalisation of a session (`Session.normalize_tags`):
 * the tag text is split at every whitespace character or comma, the blank
 * pieces are dropped and the remaining pieces are joined with commas, in
 * input order.
 */
module Tags {
  import opened Wrappers

  /** A character of the split pattern `[\s,]`: space, tab, line feed,
      vertical tab, form feed, carriage return, or a comma. */
  predicate IsSeparator(c: char) {
    c == ' ' || c == '\t' || c == '\n' || c == '\r' || c == ','
    || c as int == 0x0B || c as int == 0x0C
  }

  /** A character of the `[[:space:]]` class used by the blank test. */
  predicate IsBlankChar(c: char) {
    var k := c as int;
    (0x09 <= k <= 0x0D) || k == 0x20 || k == 0x85 || k == 0xA0 || k == 0x1680
    || (0x2000 <= k <= 0x200A) || k == 0x2028 || k == 0x2029 || k == 0x202F
    || k == 0x205F || k == 0x3000
  }

  /** A string is blank when it is empty or holds only space characters. */
  predicate Blank(s: string) {
    forall i :: 0 <= i < |s| ==> IsBlankChar(s[i])
  }

  /** No character of `s` is a separator. */
  predicate NoSeparator(s: string) {
    forall i :: 0 <= i < |s| ==> !IsSeparator(s[i])
  }

  /** A well-formed tag: not blank (so not empty) and free of separators. */
  predicate IsTag(t: string) {
    !Blank(t) && NoSeparator(t)
  }

  /**
   * The pieces of `s` between separators, one more than the number of
   * separators. Ruby's `split` also drops trailing empty pieces; those are
   * blank and are rejected right after, so the tags are the same.
   */
  function Pieces(s: string): (ps: seq<string>)
    ensures |ps| >= 1
    ensures forall i :: 0 <= i < |ps| ==> NoSeparator(ps[i])
  {
    if s == [] then [[]]
    else if IsSeparator(s[0]) then [[]] + Pieces(s[1..])
    else
      var rest := Pieces(s[1..]);
      [[s[0]] + rest[0]] + rest[1..]
  }

  /** The pieces that are not blank, in order (`reject(&:blank?)`). */
  function NonBlank(ps: seq<string>): (ts: seq<string>)
    ensures |ts| <= |ps|
    ensures forall i :: 0 <= i < |ts| ==> !Blank(ts[i])
    ensures forall p :: p in ps && !Blank(p) ==> p in ts
    ensures forall t :: t in ts ==> t in ps
  {
    if ps == [] then []
    else if Blank(ps[0]) then NonBlank(ps[1..])
    else [ps[0]] + NonBlank(ps[1..])
  }

  /** The tags written in `s`, in input order. */
  function TagsOf(s: string): (ts: seq<string>)
    ensures forall i :: 0 <= i < |ts| ==> IsTag(ts[i])
  {
    var ps := Pieces(s);
    var ts := NonBlank(ps);
    assert forall i :: 0 <= i < |ts| ==> ts[i] in ps;
    ts
  }

  /** `join(',')`. */
  function Join(ts: seq<string>): string {
    if ts == [] then []
    else if |ts| == 1 then ts[0]
    else ts[0] + [','] + Join(ts[1..])
  }

  /** `to_s`: nil becomes the empty string. */
  function TextOf(tags: Option<string>): string {
    tags.GetOr([])
  }

  /**
   * `Session.normalize_tags`. The result is empty exactly when no tag was
   * written, and otherwise splitting it at separators gives back exactly the
   * tags of the input: no empty piece, no whitespace, commas only between tags.
   */
  function NormalizeTags(tags: Option<string>): (r: string)
    ensures tags.None? ==> r == []
    ensures r == [] <==> TagsOf(TextOf(tags)) == []
    ensures r != [] ==> Pieces(r) == TagsOf(TextOf(tags))
    ensures forall i :: 0 <= i < |r| && IsSeparator(r[i]) ==> r[i] == ','
  {
    var ts := TagsOf(TextOf(tags));
    if ts == [] then []
    else
      PiecesOfJoin(ts);
      JoinNonEmpty(ts);
      JoinCommas(ts);
      Join(ts)
  }

  /** A piece without separators splits into itself. */
  lemma {:induction false} PiecesOfPlain(t: string)
    requires NoSeparator(t)
    ensures Pieces(t) == [t]
  {
    if t != [] {
      PiecesOfPlain(t[1..]);
      assert [t[0]] + t[1..] == t;
    }
  }

  /** Splitting distributes over a separator: pieces of `a`, then of `b`. */
  lemma {:induction false} PiecesAround(a: string, c: char, b: string)
    requires IsSeparator(c)
    ensures Pieces(a + [c] + b) == Pieces(a) + Pieces(b)
  {
    if a == [] {
      assert a + [c] + b == [c] + b;
      assert ([c] + b)[1..] == b;
    } else {
      var s := a + [c] + b;
      assert s[0] == a[0];
      assert s[1..] == a[1..] + [c] + b;
      PiecesAround(a[1..], c, b);
    }
  }

  /** Joining tags and splitting again gives the tags back. */
  lemma {:induction false} PiecesOfJoin(ts: seq<string>)
    requires |ts| >= 1
    requires forall i :: 0 <= i < |ts| ==> NoSeparator(ts[i])
    ensures Pieces(Join(ts)) == ts
  {
    if |ts| == 1 {
      PiecesOfPlain(ts[0]);
    } else {
      PiecesOfJoin(ts[1..]);
      PiecesAround(ts[0], ',', Join(ts[1..]));
      PiecesOfPlain(ts[0]);
      assert [ts[0]] + ts[1..] == ts;
    }
  }

  /** The only separators in a join of separator-free pieces are the
      commas it puts between them. */
  lemma {:induction false} JoinCommas(ts: seq<string>)
    requires forall i :: 0 <= i < |ts| ==> NoSeparator(ts[i])
    ensures forall i :: 0 <= i < |Join(ts)| && IsSeparator(Join(ts)[i]) ==> Join(ts)[i] == ','
  {
    if |ts| >= 2 {
      JoinCommas(ts[1..]);
      var head := ts[0];
      var tail := Join(ts[1..]);
      assert Join(ts) == head + [','] + tail;
      forall i | 0 <= i < |Join(ts)|
        ensures IsSeparator(Join(ts)[i]) ==> Join(ts)[i] == ','
      {
        if i < |head| {
          assert Join(ts)[i] == head[i];
        } else if i > |head| {
          assert Join(ts)[i] == tail[i - |head| - 1];
        }
      }
    }
  }

  /** The join of tags that are not empty is not empty. */
  lemma JoinNonEmpty(ts: seq<string>)
    requires |ts| >= 1 && ts[0] != []
    ensures Join(ts) != []
  {
  }

  /** A list of tags has no blank pieces to reject. */
  lemma {:induction false} NonBlankOfTags(ts: seq<string>)
    requires forall i :: 0 <= i < |ts| ==> !Blank(ts[i])
    ensures NonBlank(ts) == ts
  {
    if ts != [] {
      NonBlankOfTags(ts[1..]);
      assert [ts[0]] + ts[1..] == ts;
    }
  }

  /** Normalising an already normalised tag list changes nothing. */
  lemma NormalizeTagsIdempotent(tags: Option<string>)
    ensures NormalizeTags(Some(NormalizeTags(tags))) == NormalizeTags(tags)
  {
    var r := NormalizeTags(tags);
    var ts := TagsOf(TextOf(tags));
    if r == [] {
      assert Pieces([]) == [[]];
      assert Blank([]);
      assert TagsOf([]) == [];
    } else {
      assert Pieces(r) == ts;
      NonBlankOfTags(ts);
      assert TagsOf(r) == ts;
    }
  }

  /** Pieces made only of separators and space characters are all blank. */
  lemma {:induction false} PiecesOfSpace(s: string)
    requires forall i :: 0 <= i < |s| ==> IsSeparator(s[i]) || IsBlankChar(s[i])
    ensures forall i :: 0 <= i < |Pieces(s)| ==> Blank(Pieces(s)[i])
  {
    if s != [] {
      PiecesOfSpace(s[1..]);
      if !IsSeparator(s[0]) {
        var rest := Pieces(s[1..]);
        var p := [s[0]] + rest[0];
        assert forall j :: 1 <= j < |p| ==> p[j] == rest[0][j - 1];
      }
    }
  }

  /** Blank pieces are all rejected. */
  lemma {:induction false} NonBlankOfBlanks(ps: seq<string>)
    requires forall i :: 0 <= i < |ps| ==> Blank(ps[i])
    ensures NonBlank(ps) == []
  {
    if ps != [] {
      NonBlankOfBlanks(ps[1..]);
    }
  }

  /** Text of only whitespace and commas normalises to the empty tag list. */
  lemma NormalizeSpaceOnly(s: string)
    requires forall i :: 0 <= i < |s| ==> IsSeparator(s[i]) || IsBlankChar(s[i])
    ensures NormalizeTags(Some(s)) == []
  {
    PiecesOfSpace(s);
    NonBlankOfBlanks(Pieces(s));
  }

  /** Tags keep the input order: the tags of text joined by a separator are
      the tags of the first part followed by those of the second. */
  lemma {:induction false} NonBlankAppend(p: seq<string>, q: seq<string>)
    ensures NonBlank(p + q) == NonBlank(p) + NonBlank(q)
  {
    if p != [] {
      assert (p + q)[0] == p[0];
      assert (p + q)[1..] == p[1..] + q;
      NonBlankAppend(p[1..], q);
    } else {
      assert p + q == q;
    }
  }

  lemma TagsAround(a: string, c: char, b: string)
    requires IsSeparator(c)
    ensures TagsOf(a + [c] + b) == TagsOf(a) + TagsOf(b)
  {
    PiecesAround(a, c, b);
    NonBlankAppend(Pieces(a), Pieces(b));
  }
}
