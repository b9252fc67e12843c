/**
 * What the add and edit dialogs share: the empty form and the comma-separated tag text
 * (`split(',')`, `trim()`, drop empty pieces; `join(', ')` the other way).
 * Whitespace is the ASCII whitespace that `String.prototype.trim` removes.
 */
module TaskForms {
  import opened Wrappers
  import opened TaskTypes
  import Seqs

  /** The objective selector's "no objective" value, stored as it is. */
  const Unassigned := "unassigned"

  /** `initialFormData` of both dialogs. */
  const InitialFormData := TaskFormData("", "", "", Medium, Unassigned, "", None)

  predicate IsSpace(c: char) {
    c == ' ' || c == '\t' || c == '\n' || c == '\r' || c == '\U{000B}' || c == '\U{000C}'
  }

  /** Nothing but whitespace. */
  predicate AllSpace(s: string) {
    forall i :: 0 <= i < |s| ==> IsSpace(s[i])
  }

  /** No whitespace at either end. */
  predicate IsTrimmed(s: string) {
    s == [] || (!IsSpace(s[0]) && !IsSpace(s[|s| - 1]))
  }

  // ---------------------------------------------------------------------------
  // split and join
  // ---------------------------------------------------------------------------

  /** `s.split(sep)`: the pieces between separators; there is always at least one. */
  function Split(s: string, sep: char): (r: seq<string>)
    ensures |r| >= 1
    ensures forall i :: 0 <= i < |r| ==> sep !in r[i]
  {
    if s == [] then [""]
    else
      var rest := Split(s[1..], sep);
      if s[0] == sep then [""] + rest else [[s[0]] + rest[0]] + rest[1..]
  }

  /** `parts.join(sep)`. */
  function Join(parts: seq<string>, sep: string): string {
    if |parts| == 0 then ""
    else if |parts| == 1 then parts[0]
    else parts[0] + sep + Join(parts[1..], sep)
  }

  /** Splitting and joining back with the same separator gives the text back. */
  lemma {:induction false} JoinSplit(s: string, sep: char)
    ensures Join(Split(s, sep), [sep]) == s
  {
    if s != [] {
      var rest := Split(s[1..], sep);
      JoinSplit(s[1..], sep);
      if s[0] == sep {
        assert ([""] + rest)[1..] == rest;
      } else if |rest| > 1 {
        var r := [[s[0]] + rest[0]] + rest[1..];
        assert r[1..] == rest[1..];
        assert s == [s[0]] + s[1..];
      }
    }
  }

  lemma {:induction false} SplitNoSeparator(s: string, sep: char)
    requires sep !in s
    ensures Split(s, sep) == [s]
  {
    if s != [] {
      SplitNoSeparator(s[1..], sep);
      assert s == [s[0]] + s[1..];
    }
  }

  lemma {:induction false} SplitAtFirstSeparator(a: string, sep: char, b: string)
    requires sep !in a
    ensures Split(a + [sep] + b, sep) == [a] + Split(b, sep)
  {
    if a == [] {
      assert ([] + [sep] + b)[1..] == b;
    } else {
      assert (a + [sep] + b)[1..] == a[1..] + [sep] + b;
      SplitAtFirstSeparator(a[1..], sep, b);
      assert a == [a[0]] + a[1..];
    }
  }

  // ---------------------------------------------------------------------------
  // trim
  // ---------------------------------------------------------------------------

  function TrimStart(s: string): (r: string)
    ensures |r| <= |s| && r == s[|s| - |r|..]
    ensures r == [] || !IsSpace(r[0])
    ensures AllSpace(s[..|s| - |r|])
  {
    if |s| > 0 && IsSpace(s[0]) then TrimStart(s[1..]) else s
  }

  function TrimEnd(s: string): (r: string)
    ensures |r| <= |s| && r == s[..|r|]
    ensures r == [] || !IsSpace(r[|r| - 1])
    ensures AllSpace(s[|r|..])
  {
    if |s| > 0 && IsSpace(s[|s| - 1]) then
      var r := TrimEnd(s[..|s| - 1]);
      assert s[|r|..] == s[..|s| - 1][|r|..] + [s[|s| - 1]];
      r
    else s
  }

  /** How many characters trim drops at the front. */
  function TrimOffset(s: string): nat {
    |s| - |TrimStart(s)|
  }

  /**
   * `r` is what is left of `s` once `k` characters are cut off in front and the rest
   * behind it: everything cut off is whitespace, and `r` starts and ends with none.
   */
  predicate IsTrimOf(s: string, k: nat, r: string) {
    k + |r| <= |s| && r == s[k..k + |r|] && AllSpace(s[..k]) && AllSpace(s[k + |r|..]) && IsTrimmed(r)
  }

  /** `s.trim()`: the text with the whitespace at both ends removed. */
  function Trim(s: string): (r: string)
    ensures IsTrimOf(s, TrimOffset(s), r)
  {
    var front := TrimStart(s);
    var r := TrimEnd(front);
    CutBothEnds(s, TrimOffset(s), front, r);
    r
  }

  /** Cutting `k` whitespace characters off the front, then whitespace off the tail of what is left. */
  lemma CutBothEnds(s: string, k: nat, front: string, r: string)
    requires k <= |s| && front == s[k..] && AllSpace(s[..k]) && (front == [] || !IsSpace(front[0]))
    requires |r| <= |front| && r == front[..|r|] && AllSpace(front[|r|..])
    requires r == [] || !IsSpace(r[|r| - 1])
    ensures IsTrimOf(s, k, r)
  {
    assert s[k + |r|..] == front[|r|..];
    if r != [] {
      assert r[0] == front[0];
    }
  }

  /** Whitespace in front of a trimmed, non-empty text is all that trim removes. */
  lemma {:induction false} TrimPadded(lead: string, t: string)
    requires forall i :: 0 <= i < |lead| ==> IsSpace(lead[i])
    requires t != [] && IsTrimmed(t)
    ensures Trim(lead + t) == t
  {
    if lead == [] {
      assert lead + t == t;
    } else {
      assert (lead + t)[1..] == lead[1..] + t;
      TrimPadded(lead[1..], t);
      assert TrimStart(lead + t) == TrimStart(lead[1..] + t);
    }
  }

  // ---------------------------------------------------------------------------
  // tag text
  // ---------------------------------------------------------------------------

  predicate NonEmpty(tag: string) {
    tag != ""
  }

  /** `parts.map(t => t.trim())`. */
  function TrimAll(parts: seq<string>): (r: seq<string>)
    ensures |r| == |parts|
    ensures forall i :: 0 <= i < |r| ==> r[i] == Trim(parts[i])
  {
    Seqs.Map(Trim, parts)
  }

  lemma TrimAllKeepsOut(parts: seq<string>, c: char)
    requires forall i :: 0 <= i < |parts| ==> c !in parts[i]
    ensures forall i :: 0 <= i < |parts| ==> c !in TrimAll(parts)[i]
  {
    forall i | 0 <= i < |parts| ensures c !in TrimAll(parts)[i] {
      var t := Trim(parts[i]);
    }
  }

  /**
   * `tags ? tags.split(',').map(t => t.trim()).filter(t => t) : []`: exactly the
   * non-empty trimmed pieces between the commas, in order.
   */
  function ParseTags(text: string): (r: seq<string>)
    ensures forall i :: 0 <= i < |r| ==> r[i] != "" && IsTrimmed(r[i]) && ',' !in r[i]
    ensures r == ReadBack(text)
    ensures Seqs.IsSubsequence(r, TrimAll(Split(text, ',')))
    ensures forall piece :: piece in Split(text, ',') && Trim(piece) != "" ==> Trim(piece) in r
  {
    ReadBackClean(text);
    ReadBackKeepsPieces(text);
    if text != "" then ReadBack(text)
    else
      ReadBackOfEmpty();
      []
  }

  /** Every piece read back is non-empty, trimmed and free of commas. */
  lemma ReadBackClean(text: string)
    ensures forall i :: 0 <= i < |ReadBack(text)| ==> CleanTag(ReadBack(text)[i])
  {
    var pieces := Split(text, ',');
    var trimmed := TrimAll(pieces);
    TrimAllKeepsOut(pieces, ',');
    var r := ReadBack(text);
    forall i | 0 <= i < |r| ensures CleanTag(r[i]) {
      assert r[i] in trimmed;
      var j :| 0 <= j < |trimmed| && trimmed[j] == r[i];
      assert IsTrimmed(Trim(pieces[j]));
    }
  }

  /** The empty text is the one piece "", which is dropped. */
  lemma ReadBackOfEmpty()
    ensures ReadBack("") == []
  {
    assert Split("", ',') == [""];
    assert TrimAll([""]) == [""];
    assert Seqs.Filter(NonEmpty, [""]) == [];
  }

  lemma KeptWhenNonEmpty(trimmed: seq<string>, i: nat)
    requires i < |trimmed| && trimmed[i] != ""
    ensures trimmed[i] in Seqs.Filter(NonEmpty, trimmed)
  {
    assert trimmed[i] in trimmed && NonEmpty(trimmed[i]);
  }

  /** Every piece that is non-empty once trimmed is read back. */
  lemma ReadBackKeepsPieces(text: string)
    ensures forall piece :: piece in Split(text, ',') && Trim(piece) != "" ==> Trim(piece) in ReadBack(text)
  {
    var pieces := Split(text, ',');
    var trimmed := TrimAll(pieces);
    forall piece | piece in pieces && Trim(piece) != "" ensures Trim(piece) in ReadBack(text) {
      var i :| 0 <= i < |pieces| && pieces[i] == piece;
      KeptWhenNonEmpty(trimmed, i);
    }
  }

  /** `tags.join(', ')`. */
  function JoinTags(tags: seq<string>): string {
    Join(tags, ", ")
  }

  /** A tag that survives being written out and read back: non-empty, trimmed, no comma. */
  predicate CleanTag(t: string) {
    t != "" && IsTrimmed(t) && ',' !in t
  }

  lemma TrimAllCons(a: string, rest: seq<string>)
    ensures TrimAll([a] + rest) == [Trim(a)] + TrimAll(rest)
  {
    Seqs.MapCons(Trim, a, rest);
  }

  lemma KeepNonEmptyCons(a: string, rest: seq<string>)
    requires a != ""
    ensures Seqs.Filter(NonEmpty, [a] + rest) == [a] + Seqs.Filter(NonEmpty, rest)
  {
    assert ([a] + rest)[1..] == rest;
  }

  /** The text of the pieces from `lead + tags.join(', ')`, once trimmed and kept when non-empty. */
  function ReadBack(text: string): seq<string> {
    Seqs.Filter(NonEmpty, TrimAll(Split(text, ',')))
  }

  lemma ReadBackOne(lead: string, tag: string)
    requires forall i :: 0 <= i < |lead| ==> IsSpace(lead[i])
    requires CleanTag(tag)
    ensures ReadBack(lead + tag) == [tag]
  {
    var first := lead + tag;
    assert ',' !in lead;
    SplitNoSeparator(first, ',');
    TrimPadded(lead, tag);
    TrimAllCons(first, []);
    KeepNonEmptyCons(tag, []);
  }

  lemma ReadBackMore(lead: string, tag: string, more: string)
    requires forall i :: 0 <= i < |lead| ==> IsSpace(lead[i])
    requires CleanTag(tag)
    ensures ReadBack(lead + tag + ", " + more) == [tag] + ReadBack(" " + more)
  {
    var first := lead + tag;
    assert ',' !in lead;
    assert lead + tag + ", " + more == first + [','] + (" " + more);
    SplitAtFirstSeparator(first, ',', " " + more);
    TrimPadded(lead, tag);
    TrimAllCons(first, Split(" " + more, ','));
    KeepNonEmptyCons(tag, TrimAll(Split(" " + more, ',')));
  }

  lemma {:induction false} ParsePaddedJoin(tags: seq<string>, lead: string)
    requires |tags| >= 1 && forall i :: 0 <= i < |tags| ==> CleanTag(tags[i])
    requires forall i :: 0 <= i < |lead| ==> IsSpace(lead[i])
    ensures ReadBack(lead + Join(tags, ", ")) == tags
  {
    if |tags| == 1 {
      ReadBackOne(lead, tags[0]);
    } else {
      var more := Join(tags[1..], ", ");
      assert lead + Join(tags, ", ") == lead + tags[0] + ", " + more;
      ReadBackMore(lead, tags[0], more);
      assert forall i :: 0 <= i < |" "| ==> IsSpace(" "[i]);
      ParsePaddedJoin(tags[1..], " ");
      assert tags == [tags[0]] + tags[1..];
    }
  }

  /** Tags written out for editing and read back on submit come back unchanged. */
  lemma TagsRoundTrip(tags: seq<string>)
    requires forall i :: 0 <= i < |tags| ==> CleanTag(tags[i])
    ensures ParseTags(JoinTags(tags)) == tags
  {
    if tags != [] {
      ParsePaddedJoin(tags, "");
      assert "" + Join(tags, ", ") == Join(tags, ", ");
      assert |Join(tags, ", ")| >= |tags[0]| > 0;
    }
  }
}
