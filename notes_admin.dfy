/** The administrator's employee-notes panel: the fetched notes are sorted on
    a copy, unresolved first and newest first within each status, and each is
    shown with its author's name and, while unresolved, a "mark resolved"
    action. */
module EmployeeNotesAdmin {
  import opened Wrappers
  import opened Schema
  import opened Collections
  import opened Routes

  // ---------------------------------------------------------------------------
  // The comparator
  // ---------------------------------------------------------------------------

  /** The comparator handed to `sort`: negative puts `a` first. Dates compare
      by their millisecond clock readings. */
  function Compare(a: EmployeeNote, b: EmployeeNote): (c: int)
    ensures a.resolved != b.resolved ==> (c < 0 <==> !a.resolved)
    ensures a.resolved == b.resolved ==> (c <= 0 <==> a.createdAt >= b.createdAt)
  {
    if a.resolved != b.resolved then (if a.resolved then 1 else -1)
    else b.createdAt - a.createdAt
  }

  /** `a` may stand before `b` in the sorted list. */
  predicate Before(a: EmployeeNote, b: EmployeeNote) {
    Compare(a, b) <= 0
  }

  /** The comparator is consistent, as `sort` requires: swapping the
      arguments flips the sign, and "may stand before" is total and
      transitive. */
  lemma CompareConsistent(a: EmployeeNote, b: EmployeeNote, c: EmployeeNote)
    ensures Compare(a, b) < 0 <==> Compare(b, a) > 0
    ensures Compare(a, b) == 0 <==> Compare(b, a) == 0
    ensures Before(a, b) || Before(b, a)
    ensures Before(a, b) && Before(b, c) ==> Before(a, c)
  {
  }

  ghost predicate Sorted(s: seq<EmployeeNote>) {
    forall i, j :: 0 <= i < j < |s| ==> Before(s[i], s[j])
  }

  // ---------------------------------------------------------------------------
  // Sorting
  // ---------------------------------------------------------------------------

  /** A note that may stand before every note of a sorted list may head it. */
  lemma SortedCons(a: EmployeeNote, rest: seq<EmployeeNote>)
    requires Sorted(rest)
    requires forall y :: y in rest ==> Before(a, y)
    ensures Sorted([a] + rest)
  {
    var r := [a] + rest;
    forall i, j | 0 <= i < j < |r|
      ensures Before(r[i], r[j])
    {
      assert r[j] == rest[j - 1];
      if 0 < i {
        assert r[i] == rest[i - 1];
      }
    }
  }

  /** The head of a sorted list may stand before every other note of it, and
      before `x` when it may stand before `x`. */
  lemma HeadBeforeAll(s: seq<EmployeeNote>, x: EmployeeNote, rest: seq<EmployeeNote>)
    requires Sorted(s) && |s| > 0 && Before(s[0], x)
    requires multiset(rest) == multiset(s[1..]) + multiset{x}
    ensures forall y :: y in rest ==> Before(s[0], y)
  {
    forall y | y in rest
      ensures Before(s[0], y)
    {
      assert y in multiset(rest);
      if y != x {
        assert y in multiset(s[1..]);
        var k :| 1 <= k < |s| && s[k] == y;
      }
    }
  }

  /** Places `x` after every note of the sorted `s` that may stand before it,
      so that of two equal notes the later one stays later. */
  function Insert(x: EmployeeNote, s: seq<EmployeeNote>): (r: seq<EmployeeNote>)
    requires Sorted(s)
    ensures multiset(r) == multiset(s) + multiset{x}
    ensures Sorted(r)
  {
    if |s| == 0 then [x]
    else if Before(s[0], x) then
      var rest := Insert(x, s[1..]);
      assert s == [s[0]] + s[1..];
      HeadBeforeAll(s, x, rest);
      SortedCons(s[0], rest);
      [s[0]] + rest
    else
      forall j | 0 <= j < |s|
        ensures Before(x, s[j])
      {
        CompareConsistent(x, s[0], s[j]);
      }
      [x] + s
  }

  /** `[...allNotes].sort(comparator)`: a sorted copy; the fetched list is left
      as it was. */
  function SortNotes(notes: seq<EmployeeNote>): (r: seq<EmployeeNote>)
    ensures multiset(r) == multiset(notes)
    ensures Sorted(r)
  {
    if |notes| == 0 then []
    else
      var last := |notes| - 1;
      assert notes == notes[..last] + [notes[last]];
      Insert(notes[last], SortNotes(notes[..last]))
  }

  /** What the sorted list promises the reader: the same notes, every
      unresolved note above every resolved one, and newest first among notes
      of the same status. */
  lemma {:induction false} SortedNotesOrder(notes: seq<EmployeeNote>)
    ensures |SortNotes(notes)| == |notes|
    ensures forall n :: n in SortNotes(notes) <==> n in notes
    ensures forall i, j :: 0 <= i < j < |SortNotes(notes)| && SortNotes(notes)[i].resolved ==> SortNotes(notes)[j].resolved
    ensures forall i, j :: 0 <= i < j < |SortNotes(notes)| && SortNotes(notes)[i].resolved == SortNotes(notes)[j].resolved
              ==> SortNotes(notes)[i].createdAt >= SortNotes(notes)[j].createdAt
  {
    var r := SortNotes(notes);
    assert |r| == |multiset(r)| == |multiset(notes)| == |notes|;
    forall n
      ensures n in r <==> n in notes
    {
      assert n in r <==> n in multiset(r);
      assert n in notes <==> n in multiset(notes);
    }
    forall i, j | 0 <= i < j < |r|
      ensures r[i].resolved ==> r[j].resolved
      ensures r[i].resolved == r[j].resolved ==> r[i].createdAt >= r[j].createdAt
    {
      assert Before(r[i], r[j]);
    }
  }

  // ---------------------------------------------------------------------------
  // Authors and cards
  // ---------------------------------------------------------------------------

  /** `users.find(user => user.id === userId)`: the first user with that id. */
  function GetUserById(users: seq<PublicUser>, userId: int): (r: Option<PublicUser>)
    ensures r.None? <==> forall u :: u in users ==> u.id != userId
    ensures r.Some? ==> exists i :: IsFirst(users, (u: PublicUser) => u.id == userId, i) && users[i] == r.value
  {
    Find(users, (u: PublicUser) => u.id == userId)
  }

  /** `user?.username || "Unknown User"`: a missing author, or one whose
      username is empty, shows as "Unknown User". */
  function AuthorName(user: Option<PublicUser>): (name: string)
    ensures user.None? ==> name == "Unknown User"
    ensures user.Some? && user.value.username != "" ==> name == user.value.username
    ensures user.Some? && user.value.username == "" ==> name == "Unknown User"
  {
    if user.None? || user.value.username == "" then "Unknown User" else user.value.username
  }

  /** One rendered note: the author line, the status badge and, for an
      unresolved note only, the action that resolves it (by note id). */
  datatype NoteCard = NoteCard(
    note: EmployeeNote,
    author: string,
    badge: string,
    resolveAction: Option<int>)

  function Card(note: EmployeeNote, users: seq<PublicUser>): (c: NoteCard)
    ensures c.note == note
    ensures c.resolveAction.Some? <==> !note.resolved
    ensures c.resolveAction.Some? ==> c.resolveAction.value == note.id
    ensures c.badge == (if note.resolved then "RESOLVED" else "NEW")
    ensures c.author == AuthorName(GetUserById(users, note.userId))
  {
    NoteCard(note, AuthorName(GetUserById(users, note.userId)),
             if note.resolved then "RESOLVED" else "NEW",
             if note.resolved then None else Some(note.id))
  }

  datatype Panel = NoNotes | NoteList(cards: seq<NoteCard>)

  /** The panel once the notes have loaded: the empty-state message when there
      are none, otherwise one card per note in sorted order. */
  function Render(notes: seq<EmployeeNote>, users: seq<PublicUser>): (p: Panel)
    ensures p.NoNotes? <==> |notes| == 0
    ensures p.NoteList? ==> |p.cards| == |notes|
    ensures p.NoteList? ==> forall i :: 0 <= i < |p.cards| ==> p.cards[i] == Card(SortNotes(notes)[i], users)
    ensures p.NoteList? ==> forall i :: 0 <= i < |p.cards| ==> (p.cards[i].resolveAction.Some? <==> !p.cards[i].note.resolved)
  {
    var sorted := SortNotes(notes);
    SortedNotesOrder(notes);
    if |sorted| == 0 then NoNotes
    else NoteList(seq(|sorted|, i requires 0 <= i < |sorted| => Card(sorted[i], users)))
  }
}
