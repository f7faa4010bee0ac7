/** The notes card: a text field and a list of notes kept in memory. */
module Notes {
  import opened Seqs

  /** The code points `String.prototype.trim` strips: white space and line terminators. */
  predicate IsWhitespace(c: char) {
    || c == '\t' || c == '\n' || c == '\U{000B}' || c == '\U{000C}' || c == '\r' || c == ' '
    || c == '\U{00A0}' || c == '\U{1680}' || ('\U{2000}' <= c <= '\U{200A}')
    || c == '\U{2028}' || c == '\U{2029}' || c == '\U{202F}' || c == '\U{205F}' || c == '\U{3000}'
    || c == '\U{FEFF}'
  }

  /** The text without its leading white space: a suffix of `s` whose dropped prefix is all
      white space and which does not itself start with white space. */
  function TrimStart(s: string): (r: string)
    ensures |r| <= |s| && r == s[|s| - |r|..]
    ensures forall i :: 0 <= i < |s| - |r| ==> IsWhitespace(s[i])
    ensures r != [] ==> !IsWhitespace(r[0])
  {
    if s != [] && IsWhitespace(s[0]) then
      var r := TrimStart(s[1..]);
      assert forall i :: 1 <= i < |s| - |r| ==> s[i] == s[1..][i - 1];
      r
    else s
  }

  /** The text without its trailing white space: a prefix of `s` whose dropped suffix is all
      white space and which does not itself end with white space. */
  function TrimEnd(s: string): (r: string)
    ensures |r| <= |s| && r == s[..|r|]
    ensures forall i :: |r| <= i < |s| ==> IsWhitespace(s[i])
    ensures r != [] ==> !IsWhitespace(r[|r| - 1])
  {
    if s != [] && IsWhitespace(s[|s| - 1]) then
      var r := TrimEnd(s[..|s| - 1]);
      assert forall i :: |r| <= i < |s| - 1 ==> s[i] == s[..|s| - 1][i];
      r
    else s
  }

  /** `String.prototype.trim`: the slice `s[a..b]` left once the white space at both ends is
      dropped, so everything outside it is white space and it neither starts nor ends with any. */
  function Trim(s: string): (r: string)
    ensures exists a, b :: 0 <= a <= b <= |s| && r == s[a..b] && BlankOutside(s, a, b)
    ensures r != [] ==> !IsWhitespace(r[0]) && !IsWhitespace(r[|r| - 1])
  {
    var t := TrimStart(s);
    var r := TrimEnd(t);
    TrimIsSlice(s, t, r);
    r
  }

  /** Every character of `s` before `a` and from `b` on is white space. */
  predicate BlankOutside(s: string, a: nat, b: nat)
    requires a <= b <= |s|
  {
    && (forall i :: 0 <= i < a ==> IsWhitespace(s[i]))
    && (forall i :: b <= i < |s| ==> IsWhitespace(s[i]))
  }

  /** Dropping a white-space prefix, then a white-space suffix, leaves a slice of the text
      with white space on both sides of it. */
  lemma TrimIsSlice(s: string, t: string, r: string)
    requires |t| <= |s| && t == s[|s| - |t|..] && forall i :: 0 <= i < |s| - |t| ==> IsWhitespace(s[i])
    requires |r| <= |t| && r == t[..|r|] && forall i :: |r| <= i < |t| ==> IsWhitespace(t[i])
    ensures r == s[|s| - |t|..|s| - |t| + |r|] && BlankOutside(s, |s| - |t|, |s| - |t| + |r|)
  {
    var a := |s| - |t|;
    forall i | a + |r| <= i < |s|
      ensures IsWhitespace(s[i])
    {
      assert s[i] == t[i - a];
    }
  }

  /** The card's state: the notes and the text being typed. */
  datatype NotesCard = NotesCard(notes: seq<string>, newNote: string)

  /** `handleAddNote`: text that is not blank is appended as typed (untrimmed) and the field
      is cleared; blank text changes nothing. */
  function AddNote(st: NotesCard): (r: NotesCard)
    ensures Trim(st.newNote) != [] ==> r.notes == st.notes + [st.newNote] && r.newNote == []
    ensures Trim(st.newNote) == [] ==> r == st
  {
    if Trim(st.newNote) != [] then NotesCard(st.notes + [st.newNote], []) else st
  }

  /** `handleDeleteNote`: drops every note equal to `note`, duplicates included, and keeps
      every other note as often as it was there; `DeleteNoteSplits` states that the kept
      notes stay in order. */
  function DeleteNote(st: NotesCard, note: string): (r: NotesCard)
    ensures note !in r.notes
    ensures forall i :: 0 <= i < |st.notes| && st.notes[i] != note ==> st.notes[i] in r.notes
    ensures forall i :: 0 <= i < |r.notes| ==> r.notes[i] in st.notes
    ensures forall n :: multiset(r.notes)[n] == if n == note then 0 else multiset(st.notes)[n]
    ensures r.newNote == st.newNote
  {
    var kept := (n: string) => n != note;
    FilterMembers(st.notes, kept);
    FilterMultiplicity(st.notes, kept);
    st.(notes := Filter(st.notes, kept))
  }

  // ---------------------------------------------------------------------------
  // Lemmas
  // ---------------------------------------------------------------------------

  /** Dropping leading white space leaves nothing exactly when the text is all white space. */
  lemma {:induction false} TrimStartEmpty(s: string)
    ensures TrimStart(s) == [] <==> forall i :: 0 <= i < |s| ==> IsWhitespace(s[i])
  {
    if s != [] && IsWhitespace(s[0]) {
      TrimStartEmpty(s[1..]);
      assert forall i :: 1 <= i < |s| ==> s[i] == s[1..][i - 1];
    }
  }

  /** Dropping trailing white space leaves nothing exactly when the text is all white space. */
  lemma {:induction false} TrimEndEmpty(s: string)
    ensures TrimEnd(s) == [] <==> forall i :: 0 <= i < |s| ==> IsWhitespace(s[i])
  {
    if s != [] && IsWhitespace(s[|s| - 1]) {
      TrimEndEmpty(s[..|s| - 1]);
    }
  }

  /** A note is added exactly when the text has a character other than white space. */
  lemma AddIffNotBlank(st: NotesCard)
    ensures |AddNote(st).notes| == |st.notes| + 1 <==> exists i :: 0 <= i < |st.newNote| && !IsWhitespace(st.newNote[i])
    ensures |AddNote(st).notes| == |st.notes| || |AddNote(st).notes| == |st.notes| + 1
  {
    TrimStartEmpty(st.newNote);
    var t := TrimStart(st.newNote);
    TrimEndEmpty(t);
    if Trim(st.newNote) == [] {
      assert t == [];
    }
  }

  /** Deleting from a list split in two deletes from each part and keeps the parts in
      order; with the multiplicities `DeleteNote` states, this fixes the result completely. */
  lemma DeleteNoteSplits(a: seq<string>, b: seq<string>, text: string, note: string)
    ensures DeleteNote(NotesCard(a + b, text), note).notes
            == DeleteNote(NotesCard(a, text), note).notes + DeleteNote(NotesCard(b, text), note).notes
  {
    FilterConcat(a, b, (n: string) => n != note);
  }

  /** Deleting a note that was just added, and was not in the list before, restores the list. */
  lemma AddThenDelete(st: NotesCard)
    requires Trim(st.newNote) != [] && st.newNote !in st.notes
    ensures DeleteNote(AddNote(st), st.newNote).notes == st.notes
  {
    var note := st.newNote;
    var kept := (n: string) => n != note;
    FilterSnoc(st.notes, note, kept);
    FilterAll(st.notes, kept);
  }
}
