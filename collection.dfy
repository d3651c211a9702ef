/**
 * The `Notebook` collection: an ordered sequence of notes with positional
 * CRUD, five linear searches, two counting maps, the JSON load/save pair and
 * the built-in self-test. The class keeps the `std::vector<Note>` as a
 * `seq<Note>` field that its methods reassign; every search and statistic
 * loop is proved against a pure function over that sequence, and the
 * properties of the searches and statistics are proved about those functions.
 *
 * The file `notes.json` is the field `disk`: what a reader would parse back
 * from it. Whether the file can be opened for writing is the parameter
 * `writable` of `SaveToFile`.
 */
module Collection {
  import opened Wrappers
  import opened Text
  import opened JsonData
  import opened Notes

  /** The per-note test of each of the five `findBy*` searches. */
  datatype Query =
    | ByAuthor(author: string)
    | ByTag(tag: string)
    | ByWord(word: string)
    | ByDate(date: string)
    | Since(target: string)

  predicate Matches(n: Note, q: Query) {
    match q
    case ByAuthor(a) => ToLower(n.author) == ToLower(a)
    case ByTag(t) => HasTag(n, t)
    case ByWord(w) => ContainsWord(n, w)
    case ByDate(d) => n.createdAt == d || n.updatedAt == d
    case Since(t) => AtLeast(n.updatedAt, t)
  }

  /**
   * The positions a `findBy*` loop pushes: ascending, in range, and exactly
   * those whose note passes the test.
   */
  function Positions(notes: seq<Note>, q: Query): (r: seq<int>)
    ensures forall k :: 0 <= k < |r| ==> 0 <= r[k] < |notes|
    ensures forall k, l :: 0 <= k < l < |r| ==> r[k] < r[l]
    ensures forall i :: i in r <==> 0 <= i < |notes| && Matches(notes[i], q)
  {
    if notes == [] then []
    else
      var last := |notes| - 1;
      Positions(notes[..last], q) + (if Matches(notes[last], q) then [last] else [])
  }

  /** An earlier cut-off date for `findByLastNDays` never selects fewer notes. */
  lemma SinceMonotone(notes: seq<Note>, earlier: string, later: string)
    requires AtLeast(later, earlier)
    ensures forall i :: i in Positions(notes, Since(later)) ==> i in Positions(notes, Since(earlier))
  {
    forall i | i in Positions(notes, Since(later))
      ensures i in Positions(notes, Since(earlier))
    {
      AtLeastTransitive(notes[i].updatedAt, later, earlier);
    }
  }

  /** `findByAuthor` compares whole names: "kat" does not find "Kate". */
  lemma AuthorIsNotSubstring(n: Note)
    requires n.author == "Kate"
    ensures Matches(n, ByAuthor("KATE")) && !Matches(n, ByAuthor("kat"))
  {
    assert ToLower("KATE") == "kate" == ToLower("Kate");
    assert |ToLower("kat")| == 3;
  }

  /**
   * `findByAuthor` compares whole names letter by letter, ignoring ASCII case:
   * a query matches exactly when it is as long as the author's name and the
   * two agree at every position once lower-cased.
   */
  lemma AuthorMatchIff(n: Note, a: string)
    ensures Matches(n, ByAuthor(a)) <==>
              |a| == |n.author| && forall i :: 0 <= i < |a| ==> LowerChar(a[i]) == LowerChar(n.author[i])
  {
    if |a| == |n.author| && forall i :: 0 <= i < |a| ==> LowerChar(a[i]) == LowerChar(n.author[i]) {
      assert forall i :: 0 <= i < |a| ==> ToLower(a)[i] == ToLower(n.author)[i];
    }
  }

  /** `findByTag` is case-sensitive: a note tagged "Work" is not found by "work". */
  lemma TagIsCaseSensitive(n: Note)
    requires n.tags == ["Work"]
    ensures Matches(n, ByTag("Work")) && !Matches(n, ByTag("work"))
  {
    assert "work"[0] != "Work"[0];
  }

  // ----- statistics -----

  /** `stats[key]++` on a `std::map<std::string, int>`: a missing key starts at 0. */
  function Bump(m: map<string, nat>, key: string): (r: map<string, nat>)
    ensures r.Keys == m.Keys + {key}
    ensures r[key] == (if key in m then m[key] else 0) + 1
    ensures forall k :: k in m && k != key ==> r[k] == m[k]
  {
    m[key := (if key in m then m[key] else 0) + 1]
  }

  /** `stats[key]++` for every key of `keys`, in order. */
  function Tally(m: map<string, nat>, keys: seq<string>): map<string, nat> {
    if keys == [] then m else Bump(Tally(m, keys[..|keys| - 1]), keys[|keys| - 1])
  }

  /** Counting two runs of keys one after the other counts their concatenation. */
  lemma {:induction false} TallyAppend(m: map<string, nat>, s: seq<string>, t: seq<string>)
    ensures Tally(m, s + t) == Tally(Tally(m, s), t)
    decreases |t|
  {
    if t == [] {
      assert s + t == s;
    } else {
      var t' := t[..|t| - 1];
      assert (s + t)[..|s + t| - 1] == s + t';
      TallyAppend(m, s, t');
    }
  }

  /** Counting from an empty map gives each key its number of occurrences, and no other key. */
  lemma {:induction false} TallyCounts(s: seq<string>)
    ensures forall k :: k in Tally(map[], s) <==> k in multiset(s)
    ensures forall k :: k in Tally(map[], s) ==> Tally(map[], s)[k] == multiset(s)[k]
    decreases |s|
  {
    if s != [] {
      var init := s[..|s| - 1];
      TallyCounts(init);
      assert s == init + [s[|s| - 1]];
      assert multiset(s) == multiset(init) + multiset{s[|s| - 1]};
    }
  }

  /** The sum of all the counts in a map. */
  ghost function Total(m: map<string, nat>): nat
    decreases |m|
  {
    if m == map[] then 0
    else
      var k :| k in m;
      assert |m - {k}| < |m| by { assert (m - {k}).Keys == m.Keys - {k}; }
      m[k] + Total(m - {k})
  }

  /** `Total` does not depend on which key it takes out first. */
  lemma {:induction false} TotalRemove(m: map<string, nat>, key: string)
    requires key in m
    ensures Total(m) == m[key] + Total(m - {key})
    decreases |m|
  {
    var k :| k in m && Total(m) == m[k] + Total(m - {k});
    if k != key {
      assert (m - {k}).Keys == m.Keys - {k};
      assert (m - {key}).Keys == m.Keys - {key};
      TotalRemove(m - {k}, key);
      TotalRemove(m - {key}, k);
      assert m - {k} - {key} == m - {key} - {k};
    }
  }

  lemma TotalBump(m: map<string, nat>, key: string)
    ensures Total(Bump(m, key)) == Total(m) + 1
  {
    var b := Bump(m, key);
    TotalRemove(b, key);
    assert b - {key} == m - {key};
    if key in m {
      TotalRemove(m, key);
    } else {
      assert m - {key} == m;
    }
  }

  /** Counting a run of keys from an empty map adds up to its length. */
  lemma {:induction false} TallyTotal(s: seq<string>)
    ensures Total(Tally(map[], s)) == |s|
    decreases |s|
  {
    if s != [] {
      TallyTotal(s[..|s| - 1]);
      TotalBump(Tally(map[], s[..|s| - 1]), s[|s| - 1]);
    }
  }

  /** The author of every note, in order. */
  function Authors(notes: seq<Note>): (r: seq<string>)
    ensures |r| == |notes| && forall i :: 0 <= i < |notes| ==> r[i] == notes[i].author
  {
    seq(|notes|, i requires 0 <= i < |notes| => notes[i].author)
  }

  /** Every tag of every note, note by note and in each note's order. */
  function AllTags(notes: seq<Note>): (r: seq<string>)
    ensures forall t :: t in r <==> exists i :: 0 <= i < |notes| && t in notes[i].tags
  {
    if notes == [] then []
    else
      var last := |notes| - 1;
      AllTags(notes[..last]) + notes[last].tags
  }

  /** `getAuthorStats`: one `stats[author]++` per note. */
  function AuthorCounts(notes: seq<Note>): map<string, nat> {
    Tally(map[], Authors(notes))
  }

  /** `getTagStats`: one `stats[tag]++` per tag of each note. */
  function TagCounts(notes: seq<Note>): map<string, nat> {
    Tally(map[], AllTags(notes))
  }

  /**
   * The author statistics hold exactly the authors that occur (compared
   * exactly, case included), each with its number of notes, and the counts
   * add up to the number of notes.
   */
  lemma AuthorStatsMeaning(notes: seq<Note>)
    ensures forall a :: a in AuthorCounts(notes) <==> exists i :: 0 <= i < |notes| && notes[i].author == a
    ensures forall a :: a in AuthorCounts(notes) ==> AuthorCounts(notes)[a] == multiset(Authors(notes))[a]
    ensures Total(AuthorCounts(notes)) == |notes|
  {
    var s := Authors(notes);
    TallyCounts(s);
    TallyTotal(s);
    forall a ensures a in s <==> exists i :: 0 <= i < |notes| && notes[i].author == a {
      if a in s {
        var i :| 0 <= i < |s| && s[i] == a;
        assert notes[i].author == a;
      }
    }
  }

  /**
   * The tag statistics hold exactly the tags that occur, each counted once per
   * occurrence (a tag listed twice in one note counts twice), and the counts
   * add up to the total number of tags.
   */
  lemma TagStatsMeaning(notes: seq<Note>)
    ensures forall t :: t in TagCounts(notes) <==> exists i :: 0 <= i < |notes| && t in notes[i].tags
    ensures forall t :: t in TagCounts(notes) ==> TagCounts(notes)[t] == multiset(AllTags(notes))[t]
    ensures Total(TagCounts(notes)) == |AllTags(notes)|
  {
    var s := AllTags(notes);
    TallyCounts(s);
    TallyTotal(s);
    var m := TagCounts(notes);
    assert forall t :: t in m <==> t in s;
  }

  // ----- persistence -----

  /** What `notes.json` holds, as the program would read it back. */
  datatype Disk = Absent | Unparsable | Holds(doc: Json)

  /** The `std::runtime_error` of `loadFromFile`, with its cause. */
  datatype LoadError = SyntaxError | BadNote(cause: JsonError)

  /** The `std::runtime_error` of `saveToFile`. */
  datatype SaveError = CannotOpenForWriting

  /** Every note as JSON, in order. */
  function NotesJson(notes: seq<Note>): (items: seq<Json>)
    ensures |items| == |notes| && forall i :: 0 <= i < |notes| ==> items[i] == ToJson(notes[i])
  {
    seq(|notes|, i requires 0 <= i < |notes| => ToJson(notes[i]))
  }

  /** The document `saveToFile` writes: `{"notes": [...]}`. */
  function Document(notes: seq<Note>): (doc: Json)
    ensures doc.Object? && doc.fields.Keys == {"notes"}
    ensures NoteItems(doc) == NotesJson(notes)
  {
    Object(map["notes" := Array(NotesJson(notes))])
  }

  /** The `notes` array of a document; nothing when it is missing or not an array. */
  function NoteItems(doc: Json): seq<Json> {
    if doc.Object? && "notes" in doc.fields && doc.fields["notes"].Array? then doc.fields["notes"].items
    else []
  }

  /** The notes in memory after the loading loop, and the error that stopped it, if any. */
  datatype Loaded = Loaded(notes: seq<Note>, error: Option<JsonError>)

  /**
   * The loop of `loadFromFile`: decode the items one by one and push each
   * note; the first item that does not decode stops it with the notes decoded
   * so far already in place.
   */
  function LoadNotes(items: seq<Json>): (r: Loaded)
    ensures |r.notes| <= |items|
    ensures forall i :: 0 <= i < |r.notes| ==> Decoded(items[i]) == Success(r.notes[i])
    ensures r.error.None? <==> |r.notes| == |items|
    ensures r.error.Some? ==> Decoded(items[|r.notes|]) == Failure(r.error.value)
  {
    if items == [] then Loaded([], None)
    else
      var last := |items| - 1;
      var before := LoadNotes(items[..last]);
      if before.error.Some? then before
      else match Decoded(items[last])
        case Success(n) => Loaded(before.notes + [n], None)
        case Failure(e) => Loaded(before.notes, Some(e))
  }

  /**
   * The loading loop stops at the first item that does not decode: when the
   * items before position `i` decode to `notes` and item `i` fails, loading
   * keeps exactly `notes` and reports item `i`'s error, whatever follows it.
   */
  lemma LoadNotesStopsAt(items: seq<Json>, notes: seq<Note>, i: nat)
    requires i < |items| && |notes| == i
    requires forall k :: 0 <= k < i ==> Decoded(items[k]) == Success(notes[k])
    requires Decoded(items[i]).Failure?
    ensures LoadNotes(items) == Loaded(notes, Some(Decoded(items[i]).error))
  {
    var r := LoadNotes(items);
    assert r.notes == notes;
  }

  /** When every item decodes, loading keeps all the decoded notes, in order, without error. */
  lemma LoadNotesAllDecoded(items: seq<Json>, notes: seq<Note>)
    requires |items| == |notes|
    requires forall k :: 0 <= k < |items| ==> Decoded(items[k]) == Success(notes[k])
    ensures LoadNotes(items) == Loaded(notes, None)
  {
    var r := LoadNotes(items);
    assert r.notes == notes;
  }

  /** Reading back a saved document gives the same notes, in the same order, without error. */
  lemma LoadSavedDocument(notes: seq<Note>)
    ensures LoadNotes(NoteItems(Document(notes))) == Loaded(notes, None)
  {
    var items := NotesJson(notes);
    forall k | 0 <= k < |items| ensures Decoded(items[k]) == Success(notes[k]) {
      RoundTrip(notes[k]);
    }
    LoadNotesAllDecoded(items, notes);
  }

  // ----- the self-test fixture -----

  /** The three notes `runTestScenarios` puts in place, tagged with `setTags`. */
  function Fixture(today: string): seq<Note> {
    [ SetTags(NewNote("Kate", "Shopping List", "Milk, Eggs, Bread", today), ["shopping", "home"], today),
      SetTags(NewNote("Bob", "Meeting Notes", "Discuss project timeline", today), ["work", "meeting"], today),
      SetTags(NewNote("Kate", "Book Ideas", "Write a novel about programming", today), ["personal", "ideas"], today) ]
  }

  /** What the self-test prints. `loaded` is `None` when saving threw before the reload. */
  datatype Report = Report(
    byAuthor: seq<int>,
    byTag: seq<int>,
    byWord: seq<int>,
    authorStats: map<string, nat>,
    loaded: Option<nat>)

  /** One more note adds its own position, when it passes, after the others. */
  lemma PositionsSnoc(notes: seq<Note>, n: Note, q: Query)
    ensures Positions(notes + [n], q) == Positions(notes, q) + (if Matches(n, q) then [|notes|] else [])
  {
    assert (notes + [n])[..|notes|] == notes;
  }

  /** The position of a note when it passes `q`. */
  function Hit(n: Note, q: Query, i: int): seq<int> {
    if Matches(n, q) then [i] else []
  }

  /** Positions over two notes, spelled out. */
  lemma PositionsOfTwo(a: Note, b: Note, q: Query)
    ensures Positions([a, b], q) == Hit(a, q, 0) + Hit(b, q, 1)
  {
    PositionsSnoc([], a, q);
    assert [] + [a] == [a];
    PositionsSnoc([a], b, q);
    assert [a] + [b] == [a, b];
  }

  /** Positions over three notes, spelled out. */
  lemma PositionsOfThree(a: Note, b: Note, c: Note, q: Query)
    ensures Positions([a, b, c], q) == Hit(a, q, 0) + Hit(b, q, 1) + Hit(c, q, 2)
  {
    PositionsOfTwo(a, b, q);
    PositionsSnoc([a, b], c, q);
    assert [a, b] + [c] == [a, b, c];
  }

  /** Only the two notes by Kate are found by author "Kate". */
  lemma FixtureByAuthor(today: string)
    ensures Positions(Fixture(today), ByAuthor("Kate")) == [0, 2]
  {
    var f := Fixture(today);
    PositionsOfThree(f[0], f[1], f[2], ByAuthor("Kate"));
    assert f == [f[0], f[1], f[2]];
    assert |ToLower("Bob")| != |ToLower("Kate")|;
  }

  /** Only Bob's note is tagged "work". */
  lemma FixtureByTag(today: string)
    ensures Positions(Fixture(today), ByTag("work")) == [1]
  {
    var f := Fixture(today);
    PositionsOfThree(f[0], f[1], f[2], ByTag("work"));
    assert f == [f[0], f[1], f[2]];
  }

  /** Lower-casing a text with no "j" or "J" leaves it without a "j". */
  lemma LowerLacksJ(s: string)
    requires 'j' !in s && 'J' !in s
    ensures 'j' !in ToLower(s)
  {
    forall i | 0 <= i < |s| ensures ToLower(s)[i] != 'j' {
      assert s[i] in s;
    }
  }

  /** A note whose title and content have no "j" or "J" does not mention "project". */
  lemma NoProject(n: Note)
    requires 'j' !in n.title && 'J' !in n.title && 'j' !in n.content && 'J' !in n.content
    ensures !Matches(n, ByWord("project"))
  {
    var word := ToLower("project");
    assert word[3] == LowerChar('j') == 'j';
    LowerLacksJ(n.title);
    LowerLacksJ(n.content);
    NotFoundWithout(ToLower(n.title), word, 'j');
    NotFoundWithout(ToLower(n.content), word, 'j');
  }

  /** "project" appears, lower-cased, in the content of Bob's note. */
  lemma ProjectInBobsNote(n: Note)
    requires n.content == "Discuss project timeline"
    ensures Matches(n, ByWord("project"))
  {
    var c := n.content;
    assert c[8..15] == "project";
    assert c == c[..8] + c[8..15] + c[15..];
    FoundInside(c[..8], c[8..15], c[15..]);
  }

  /** Neither of Kate's notes has a "j" or a "J" in its title or content. */
  lemma KateNotesLackJ()
    ensures forall s :: s in ["Shopping List", "Milk, Eggs, Bread", "Book Ideas", "Write a novel about programming"]
                        ==> 'j' !in s && 'J' !in s
  {
  }

  /** Kate's shopping list does not mention "project". */
  lemma ShoppingListLacksProject(today: string)
    ensures !Matches(Fixture(today)[0], ByWord("project"))
  {
    KateNotesLackJ();
    NoProject(Fixture(today)[0]);
  }

  /** Kate's book ideas do not mention "project" ("programming" is not a match). */
  lemma BookIdeasLackProject(today: string)
    ensures !Matches(Fixture(today)[2], ByWord("project"))
  {
    KateNotesLackJ();
    NoProject(Fixture(today)[2]);
  }

  /** Bob's meeting notes mention "project". */
  lemma MeetingNotesMentionProject(today: string)
    ensures Matches(Fixture(today)[1], ByWord("project"))
  {
    ProjectInBobsNote(Fixture(today)[1]);
  }

  /** Of three notes, only the middle one passes `q`. */
  ghost predicate MiddleOnly(f: seq<Note>, q: Query) {
    |f| == 3 && !Matches(f[0], q) && Matches(f[1], q) && !Matches(f[2], q)
  }

  /** When only the middle one of three notes passes `q`, a search finds position 1 alone. */
  lemma OnlyTheMiddle(f: seq<Note>, q: Query)
    requires MiddleOnly(f, q)
    ensures Positions(f, q) == [1]
  {
    assert f == [f[0], f[1], f[2]];
    PositionsOfThree(f[0], f[1], f[2], q);
  }

  /** Of the fixture's notes, only Bob's mentions "project". */
  lemma FixtureWordHits(today: string)
    ensures MiddleOnly(Fixture(today), ByWord("project"))
  {
    ShoppingListLacksProject(today);
    MeetingNotesMentionProject(today);
    BookIdeasLackProject(today);
  }

  /** Only Bob's note is found by "project"; "programming" in Kate's is no match. */
  lemma FixtureByWord(today: string)
    ensures Positions(Fixture(today), ByWord("project")) == [1]
  {
    FixtureWordHits(today);
    OnlyTheMiddle(Fixture(today), ByWord("project"));
  }

  /** Kate wrote two of the fixture's notes and Bob one. */
  lemma FixtureAuthorStats(today: string)
    ensures AuthorCounts(Fixture(today)) == map["Kate" := 2, "Bob" := 1]
  {
    var s := Authors(Fixture(today));
    assert s == ["Kate", "Bob", "Kate"];
    var one := map["Kate" := 1];
    assert Tally(map[], s[..1]) == one by {
      assert s[..1][..0] == [];
    }
    assert Tally(map[], s[..2]) == Bump(one, "Bob") by {
      assert s[..2][..1] == s[..1];
    }
    assert s[..3] == s;
    assert Bump(Bump(one, "Bob"), "Kate") == map["Kate" := 2, "Bob" := 1];
  }

  /** What the self-test prints about its fixture. */
  lemma FixtureExpectations(today: string)
    ensures Positions(Fixture(today), ByAuthor("Kate")) == [0, 2]
    ensures Positions(Fixture(today), ByTag("work")) == [1]
    ensures Positions(Fixture(today), ByWord("project")) == [1]
    ensures AuthorCounts(Fixture(today)) == map["Kate" := 2, "Bob" := 1]
  {
    FixtureByAuthor(today);
    FixtureByTag(today);
    FixtureByWord(today);
    FixtureAuthorStats(today);
  }

  class Notebook {
    /** `std::vector<Note> notes`. */
    var notes: seq<Note>
    /** The contents of `notes.json`. */
    var disk: Disk

    /** An empty notebook over whatever the file holds. */
    constructor(disk: Disk)
      ensures notes == [] && this.disk == disk
    {
      notes := [];
      this.disk := disk;
    }

    /** `addNote`: appends a copy. */
    method AddNote(n: Note)
      modifies this
      ensures notes == old(notes) + [n] && disk == old(disk)
    {
      notes := notes + [n];
    }

    /** `removeNote`: out of range it refuses; otherwise later notes shift down by one. */
    method RemoveNote(index: int) returns (ok: bool)
      modifies this
      ensures ok <==> 0 <= index < |old(notes)|
      ensures ok ==> notes == old(notes)[..index] + old(notes)[index + 1..]
      ensures !ok ==> notes == old(notes)
      ensures disk == old(disk)
    {
      if index < 0 || index >= |notes| {
        return false;
      }
      notes := notes[..index] + notes[index + 1..];
      return true;
    }

    /** `getNote`: the note at `index`, or `None` for the null pointer. */
    method GetNote(index: int) returns (r: Option<Note>)
      ensures r.Some? <==> 0 <= index < |notes|
      ensures r.Some? ==> r.value == notes[index]
    {
      if index < 0 || index >= |notes| {
        return None;
      }
      return Some(notes[index]);
    }

    /** `updateNote`: replaces the note at `index` and nothing else; out of range it refuses. */
    method UpdateNote(index: int, n: Note) returns (ok: bool)
      modifies this
      ensures ok <==> 0 <= index < |old(notes)|
      ensures ok ==> notes == old(notes)[index := n]
      ensures !ok ==> notes == old(notes)
      ensures disk == old(disk)
    {
      if index < 0 || index >= |notes| {
        return false;
      }
      notes := notes[index := n];
      return true;
    }

    /** The loop shared by the five searches: push every position whose note passes `q`. */
    method Select(q: Query) returns (result: seq<int>)
      ensures result == Positions(notes, q)
    {
      result := [];
      var i := 0;
      while i < |notes|
        invariant 0 <= i <= |notes|
        invariant result == Positions(notes[..i], q)
      {
        assert notes[..i + 1][..i] == notes[..i];
        if Matches(notes[i], q) {
          result := result + [i];
        }
        i := i + 1;
      }
      assert notes[..i] == notes;
    }

    /** `findByAuthor`: the notes whose author equals `author`, ignoring ASCII case. */
    method FindByAuthor(author: string) returns (result: seq<int>)
      ensures result == Positions(notes, ByAuthor(author))
      ensures forall i :: i in result <==> 0 <= i < |notes| && ToLower(notes[i].author) == ToLower(author)
    {
      result := Select(ByAuthor(author));
    }

    /** `findByTag`: the notes carrying exactly `tag`. */
    method FindByTag(tag: string) returns (result: seq<int>)
      ensures result == Positions(notes, ByTag(tag))
      ensures forall i :: i in result <==> 0 <= i < |notes| && tag in notes[i].tags
    {
      result := Select(ByTag(tag));
    }

    /** `findByWord`: the notes whose title or content contains `word`, ignoring ASCII case. */
    method FindByWord(word: string) returns (result: seq<int>)
      ensures result == Positions(notes, ByWord(word))
      ensures forall i :: i in result <==> 0 <= i < |notes| && ContainsWord(notes[i], word)
    {
      result := Select(ByWord(word));
    }

    /** `findByDate`: the notes created or last updated on `date`. */
    method FindByDate(date: string) returns (result: seq<int>)
      ensures result == Positions(notes, ByDate(date))
      ensures forall i :: i in result <==>
        0 <= i < |notes| && (notes[i].createdAt == date || notes[i].updatedAt == date)
    {
      result := Select(ByDate(date));
    }

    /**
     * `findByLastNDays`: the notes whose update date sorts at or after
     * `targetDate`, the date `days` days before today.
     */
    method FindByLastNDays(targetDate: string) returns (result: seq<int>)
      ensures result == Positions(notes, Since(targetDate))
      ensures forall i :: i in result <==> 0 <= i < |notes| && AtLeast(notes[i].updatedAt, targetDate)
    {
      result := Select(Since(targetDate));
    }

    /** `getAuthorStats`. */
    method AuthorStats() returns (stats: map<string, nat>)
      ensures stats == AuthorCounts(notes)
    {
      stats := map[];
      var i := 0;
      while i < |notes|
        invariant 0 <= i <= |notes|
        invariant stats == Tally(map[], Authors(notes[..i]))
      {
        assert Authors(notes[..i + 1]) == Authors(notes[..i]) + [notes[i].author];
        stats := Bump(stats, notes[i].author);
        i := i + 1;
      }
      assert notes[..i] == notes;
    }

    /** `getTagStats`. */
    method TagStats() returns (stats: map<string, nat>)
      ensures stats == TagCounts(notes)
    {
      stats := map[];
      var i := 0;
      while i < |notes|
        invariant 0 <= i <= |notes|
        invariant stats == Tally(map[], AllTags(notes[..i]))
      {
        var tags := notes[i].tags;
        ghost var before := stats;
        var j := 0;
        while j < |tags|
          invariant 0 <= j <= |tags|
          invariant stats == Tally(before, tags[..j])
        {
          assert tags[..j + 1][..j] == tags[..j];
          stats := Bump(stats, tags[j]);
          j := j + 1;
        }
        assert stats == Tally(map[], AllTags(notes[..i + 1])) by {
          assert tags[..j] == tags;
          assert notes[..i + 1][..i] == notes[..i];
          TallyAppend(map[], AllTags(notes[..i]), tags);
        }
        i := i + 1;
      }
      assert notes[..i] == notes;
    }

    /**
     * `saveToFile`: builds `{"notes": [...]}` and overwrites the file with
     * it, or throws when the file cannot be opened, leaving it as it was.
     */
    method SaveToFile(writable: bool) returns (r: Outcome<SaveError>)
      modifies this
      ensures notes == old(notes)
      ensures writable ==> r == Pass && disk == Holds(Document(notes))
      ensures !writable ==> r == Fail(CannotOpenForWriting) && disk == old(disk)
    {
      var items: seq<Json> := [];
      var i := 0;
      while i < |notes|
        invariant 0 <= i <= |notes|
        invariant items == NotesJson(notes[..i])
      {
        items := items + [ToJson(notes[i])];
        i := i + 1;
      }
      assert notes[..i] == notes;
      var doc := Object(map["notes" := Array(items)]);
      if !writable {
        return Fail(CannotOpenForWriting);
      }
      disk := Holds(doc);
      r := Pass;
    }

    /**
     * `loadFromFile`: a missing file leaves the notes alone; an unparsable
     * one throws before anything changes; otherwise the notes are cleared and
     * refilled from the `notes` array, and an item that does not decode
     * throws with the notes read so far left in place.
     */
    method LoadFromFile() returns (r: Outcome<LoadError>)
      modifies this
      ensures disk == old(disk)
      ensures disk.Absent? ==> r == Pass && notes == old(notes)
      ensures disk.Unparsable? ==> r == Fail(SyntaxError) && notes == old(notes)
      ensures disk.Holds? ==> notes == LoadNotes(NoteItems(disk.doc)).notes
      ensures disk.Holds? ==> r == match LoadNotes(NoteItems(disk.doc)).error
                                  case None => Pass
                                  case Some(e) => Fail(BadNote(e))
    {
      if disk.Absent? {
        return Pass;
      }
      if disk.Unparsable? {
        return Fail(SyntaxError);
      }
      var items := NoteItems(disk.doc);
      notes := [];
      var i := 0;
      while i < |items|
        invariant 0 <= i <= |items|
        invariant LoadNotes(items[..i]) == Loaded(notes, None)
        invariant disk == old(disk)
      {
        assert items[..i + 1][..i] == items[..i];
        var n := FromJson(items[i]);
        if n.Failure? {
          LoadNotesStopsAt(items, notes, i);
          return Fail(BadNote(n.error));
        }
        notes := notes + [n.value];
        i := i + 1;
      }
      assert items[..i] == items;
      r := Pass;
    }

    /** The first step of `runTestScenarios`: clear the notes and add the three fixture notes. */
    method InstallFixture(today: string)
      modifies this
      ensures notes == Fixture(today) && disk == old(disk)
    {
      var fixture := Fixture(today);
      notes := [];
      AddNote(fixture[0]);
      AddNote(fixture[1]);
      AddNote(fixture[2]);
      assert notes == [fixture[0], fixture[1], fixture[2]];
    }

    /** Steps 2 to 5 of `runTestScenarios`: the three searches and the author statistics over the fixture. */
    method SearchFixture(today: string) returns (kate: seq<int>, work: seq<int>, project: seq<int>, stats: map<string, nat>)
      requires notes == Fixture(today)
      ensures kate == [0, 2] && work == [1] && project == [1]
      ensures stats == map["Kate" := 2, "Bob" := 1]
    {
      FixtureExpectations(today);
      kate := FindByAuthor("Kate");
      work := FindByTag("work");
      project := FindByWord("project");
      stats := AuthorStats();
    }

    /**
     * The save-then-reload step of `runTestScenarios`: `saveToFile`,
     * `notes.clear()`, `loadFromFile`. When the file can be written the notes
     * come back exactly as they were and the file holds them; otherwise
     * `saveToFile` throws before anything changes.
     */
    method SaveAndReload(writable: bool) returns (r: Outcome<SaveError>, count: Option<nat>)
      modifies this
      ensures notes == old(notes)
      ensures writable ==> r == Pass && count == Some(|notes|) && disk == Holds(Document(notes))
      ensures !writable ==> r == Fail(CannotOpenForWriting) && count == None && disk == old(disk)
    {
      var saved := notes;
      r := SaveToFile(writable);
      if r.Fail? {
        count := None;
        return;
      }
      notes := [];
      LoadSavedDocument(saved);
      var loaded := LoadFromFile();
      assert loaded == Pass;
      count := Some(|notes|);
    }

    /**
     * `runTestScenarios`: keeps a copy of the notes, runs the searches and
     * statistics over the fixture, saves and reloads it, then puts the copy
     * back. If saving throws, the exception leaves the fixture in memory.
     * Either way `notes.json` no longer holds what it held before when it
     * could be written: it now holds the fixture.
     */
    method RunTestScenarios(today: string, writable: bool) returns (report: Report, r: Outcome<SaveError>)
      modifies this
      ensures report.byAuthor == [0, 2] && report.byTag == [1] && report.byWord == [1]
      ensures report.authorStats == map["Kate" := 2, "Bob" := 1]
      ensures writable ==> r == Pass && report.loaded == Some(3)
      ensures writable ==> notes == old(notes) && disk == Holds(Document(Fixture(today)))
      ensures !writable ==> r.Fail? && report.loaded == None
      ensures !writable ==> notes == Fixture(today) && disk == old(disk)
    {
      var backup := notes;
      InstallFixture(today);
      var kate, work, project, stats := SearchFixture(today);

      var count;
      r, count := SaveAndReload(writable);
      report := Report(kate, work, project, stats, count);
      if r.Pass? {
        notes := backup;
      }
    }
  }
}
