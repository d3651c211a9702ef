/**
 * The `Note` entity: an author, a title, a body, an ordered list of tags and
 * two `YYYY-MM-DD` date strings. A note is copied by value wherever the C++
 * code copies it, so it is a datatype here and every setter is a function
 * from the old note to the new one. Where the C++ setter throws
 * `std::invalid_argument`, the function returns a `Failure` and the caller
 * keeps the note it had. The current date, which the C++ code reads from
 * the clock, is the parameter `today`.
 */
module Notes {
  import opened Wrappers
  import opened Text
  import opened JsonData

  datatype Note = Note(
    author: string,
    title: string,
    content: string,
    createdAt: string,
    updatedAt: string,
    tags: seq<string>)

  /** The two `std::invalid_argument` messages of the setters. */
  datatype ValidationError = EmptyAuthor | EmptyTitle

  /** Why `Note::fromJson` throws: `value()` on a non-object, or a member of the wrong type. */
  datatype JsonError = NotAnObject | NotAString(key: string)

  /** The creation date does not sort after the last update (string order). */
  predicate WellDated(n: Note) {
    AtLeast(n.updatedAt, n.createdAt)
  }

  /** `Note()`: every text field empty, both dates set to today. */
  function BlankNote(today: string): (n: Note)
    ensures n.author == n.title == n.content == [] && n.tags == []
    ensures n.createdAt == n.updatedAt == today
  {
    Note("", "", "", today, today, [])
  }

  /**
   * `Note(author, title, content)`: no tags, both dates today. It does not
   * check for an empty author or title.
   */
  function NewNote(author: string, title: string, content: string, today: string): (n: Note)
    ensures n.author == author && n.title == title && n.content == content
    ensures n.tags == [] && n.createdAt == n.updatedAt == today
    ensures WellDated(n)
  {
    LessIrreflexive(today);
    Note(author, title, content, today, today, [])
  }

  /** `setAuthor`: refuses an empty author, otherwise replaces it and stamps the update date. */
  function SetAuthor(n: Note, author: string, today: string): (r: Result<Note, ValidationError>)
    ensures r.Failure? <==> author == []
    ensures r.Failure? ==> r.error == EmptyAuthor
    ensures r.Success? ==> r.value.author == author && r.value.updatedAt == today
    ensures r.Success? ==> r.value.title == n.title && r.value.content == n.content
    ensures r.Success? ==> r.value.createdAt == n.createdAt && r.value.tags == n.tags
  {
    if author == [] then Failure(EmptyAuthor) else Success(n.(author := author, updatedAt := today))
  }

  /** `setTitle`: refuses an empty title, otherwise replaces it and stamps the update date. */
  function SetTitle(n: Note, title: string, today: string): (r: Result<Note, ValidationError>)
    ensures r.Failure? <==> title == []
    ensures r.Failure? ==> r.error == EmptyTitle
    ensures r.Success? ==> r.value.title == title && r.value.updatedAt == today
    ensures r.Success? ==> r.value.author == n.author && r.value.content == n.content
    ensures r.Success? ==> r.value.createdAt == n.createdAt && r.value.tags == n.tags
  {
    if title == [] then Failure(EmptyTitle) else Success(n.(title := title, updatedAt := today))
  }

  /** `setContent`: any content, the empty one included; stamps the update date. */
  function SetContent(n: Note, content: string, today: string): (r: Note)
    ensures r.content == content && r.updatedAt == today
    ensures r.author == n.author && r.title == n.title
    ensures r.createdAt == n.createdAt && r.tags == n.tags
  {
    n.(content := content, updatedAt := today)
  }

  /** `setTags`: any tag list, kept in the given order; stamps the update date. */
  function SetTags(n: Note, tags: seq<string>, today: string): (r: Note)
    ensures r.tags == tags && r.updatedAt == today
    ensures r.author == n.author && r.title == n.title
    ensures r.createdAt == n.createdAt && r.content == n.content
  {
    n.(tags := tags, updatedAt := today)
  }

  /**
   * `update`: `setTitle`, then `setContent`, then `setTags`. Only the first
   * can throw, so a bad title changes nothing and a good one changes all three.
   */
  function Update(n: Note, title: string, content: string, tags: seq<string>, today: string)
    : (r: Result<Note, ValidationError>)
    ensures r.Failure? <==> title == []
    ensures r.Failure? ==> r.error == EmptyTitle
    ensures r.Success? ==> r.value == Note(n.author, title, content, n.createdAt, today, tags)
  {
    var titled :- SetTitle(n, title, today);
    Success(SetTags(SetContent(titled, content, today), tags, today))
  }

  /** The note that a successful setter produces from `n`, whichever setter it was. */
  ghost predicate SetterStep(n: Note, m: Note, today: string) {
    || SetAuthor(n, m.author, today) == Success(m)
    || SetTitle(n, m.title, today) == Success(m)
    || SetContent(n, m.content, today) == m
    || SetTags(n, m.tags, today) == m
    || Update(n, m.title, m.content, m.tags, today) == Success(m)
  }

  /**
   * With a clock that never runs backwards, every successful setter keeps the
   * creation date at or before the update date and never moves the update
   * date back.
   */
  lemma SetterKeepsDatesOrdered(n: Note, m: Note, today: string)
    requires WellDated(n) && AtLeast(today, n.updatedAt)
    requires SetterStep(n, m, today)
    ensures m.createdAt == n.createdAt && m.updatedAt == today
    ensures WellDated(m) && AtLeast(m.updatedAt, n.updatedAt)
  {
    AtLeastTransitive(today, n.updatedAt, n.createdAt);
  }

  /** The tags as a JSON array of strings, in order. */
  function TagsJson(tags: seq<string>): (items: seq<Json>)
    ensures |items| == |tags|
    ensures forall i :: 0 <= i < |tags| ==> items[i] == Str(tags[i])
  {
    seq(|tags|, i requires 0 <= i < |tags| => Str(tags[i]))
  }

  /** `toJson`: an object with exactly the six members of a note. */
  function ToJson(n: Note): (j: Json)
    ensures j.Object?
    ensures j.fields.Keys == {"author", "title", "content", "createdAt", "updatedAt", "tags"}
  {
    Object(map[
      "author" := Str(n.author),
      "title" := Str(n.title),
      "content" := Str(n.content),
      "createdAt" := Str(n.createdAt),
      "updatedAt" := Str(n.updatedAt),
      "tags" := Array(TagsJson(n.tags))])
  }

  /** `j.value(key, "")`: the default for a missing member, a type error for a non-string one. */
  function StringMember(fields: map<string, Json>, key: string): (r: Result<string, JsonError>)
    ensures key !in fields ==> r == Success("")
    ensures key in fields ==> (r.Success? <==> fields[key].Str?)
    ensures r.Success? && key in fields ==> fields[key] == Str(r.value)
    ensures r.Failure? ==> r.error == NotAString(key)
  {
    if key !in fields then Success("")
    else if fields[key].Str? then Success(fields[key].s)
    else Failure(NotAString(key))
  }

  /**
   * The `push_back` loop over the `tags` array: every element must be a string
   * (`get<string>()` throws otherwise), and their order is kept.
   */
  function DecodeTags(items: seq<Json>): (r: Result<seq<string>, JsonError>)
    ensures r.Success? <==> forall i :: 0 <= i < |items| ==> items[i].Str?
    ensures r.Success? ==> |r.value| == |items|
    ensures r.Success? ==> forall i :: 0 <= i < |items| ==> items[i] == Str(r.value[i])
    ensures r.Failure? ==> r.error == NotAString("tags")
  {
    if items == [] then Success([])
    else
      var init :- DecodeTags(items[..|items| - 1]);
      var last := items[|items| - 1];
      if last.Str? then Success(init + [last.s]) else Failure(NotAString("tags"))
  }

  /** What `fromJson` reads from a `tags` member, or from its absence. */
  function TagsMember(fields: map<string, Json>): Result<seq<string>, JsonError> {
    if "tags" in fields && fields["tags"].Array? then DecodeTags(fields["tags"].items)
    else Success([])
  }

  /** `fromJson`, as a value: the note it returns, or the error it throws. */
  function Decoded(j: Json): Result<Note, JsonError> {
    if !j.Object? then Failure(NotAnObject)
    else
      var f := j.fields;
      var author :- StringMember(f, "author");
      var title :- StringMember(f, "title");
      var content :- StringMember(f, "content");
      var createdAt :- StringMember(f, "createdAt");
      var updatedAt :- StringMember(f, "updatedAt");
      var tags :- TagsMember(f);
      Success(Note(author, title, content, createdAt, updatedAt, tags))
  }

  /**
   * `fromJson`: reads the five string members with `""` as their default and
   * collects the tags one by one.
   */
  method FromJson(j: Json) returns (r: Result<Note, JsonError>)
    ensures r == Decoded(j)
  {
    if !j.Object? {
      return Failure(NotAnObject);
    }
    var f := j.fields;
    var author :- StringMember(f, "author");
    var title :- StringMember(f, "title");
    var content :- StringMember(f, "content");
    var createdAt :- StringMember(f, "createdAt");
    var updatedAt :- StringMember(f, "updatedAt");
    var tags: seq<string> := [];
    if "tags" in f && f["tags"].Array? {
      var items := f["tags"].items;
      var i := 0;
      while i < |items|
        invariant 0 <= i <= |items|
        invariant DecodeTags(items[..i]) == Success(tags)
      {
        assert items[..i + 1][..i] == items[..i];
        if !items[i].Str? {
          return Failure(NotAString("tags"));
        }
        tags := tags + [items[i].s];
        i := i + 1;
      }
      assert items[..i] == items;
    }
    r := Success(Note(author, title, content, createdAt, updatedAt, tags));
  }

  /** `fromJson(toJson(n))` gives back `n`: all six fields, tags in order. */
  lemma RoundTrip(n: Note)
    ensures Decoded(ToJson(n)) == Success(n)
  {
    var items := TagsJson(n.tags);
    var tags := DecodeTags(items);
    assert tags.Success?;
    assert tags.value == n.tags;
  }

  /**
   * `fromJson` never fails for want of a member: an object whose five string
   * members are strings where present, and whose `tags` holds only strings
   * when it is an array, decodes whatever else it carries, with `""` for each
   * missing string and no tags when `tags` is missing or is not an array.
   */
  lemma MissingMembersDefault(fields: map<string, Json>)
    requires forall k :: k in {"author", "title", "content", "createdAt", "updatedAt"} && k in fields ==> fields[k].Str?
    requires "tags" in fields && fields["tags"].Array? ==>
               forall i :: 0 <= i < |fields["tags"].items| ==> fields["tags"].items[i].Str?
    ensures Decoded(Object(fields)).Success?
    ensures "author" !in fields ==> Decoded(Object(fields)).value.author == ""
    ensures "title" !in fields ==> Decoded(Object(fields)).value.title == ""
    ensures "content" !in fields ==> Decoded(Object(fields)).value.content == ""
    ensures "createdAt" !in fields ==> Decoded(Object(fields)).value.createdAt == ""
    ensures "updatedAt" !in fields ==> Decoded(Object(fields)).value.updatedAt == ""
    ensures !("tags" in fields && fields["tags"].Array?) ==> Decoded(Object(fields)).value.tags == []
  {
  }

  /** `containsWord`: the lower-cased word occurs in the lower-cased title or content. */
  predicate ContainsWord(n: Note, word: string) {
    Contains(ToLower(n.title), ToLower(word)) || Contains(ToLower(n.content), ToLower(word))
  }

  /** `hasTag`: exact, case-sensitive membership in the tag list. */
  predicate HasTag(n: Note, tag: string) {
    tag in n.tags
  }

  /** `containsWord` holds exactly when the word occurs, ignoring ASCII case, in title or content. */
  lemma ContainsWordIff(n: Note, word: string)
    ensures ContainsWord(n, word) <==>
      Occurs(ToLower(n.title), ToLower(word)) || Occurs(ToLower(n.content), ToLower(word))
  {
    ContainsIff(ToLower(n.title), ToLower(word));
    ContainsIff(ToLower(n.content), ToLower(word));
  }

  /** The empty word is found in every note. */
  lemma EmptyWordMatches(n: Note)
    ensures ContainsWord(n, "")
  {
    ContainsEmpty(ToLower(n.title));
  }

  /** Searching for a word or for its lower-case form finds the same notes. */
  lemma ContainsWordIgnoresCase(n: Note, word: string)
    ensures ContainsWord(n, word) == ContainsWord(n, ToLower(word))
  {
    ToLowerIdempotent(word);
  }
}
