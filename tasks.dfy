/**
 * The task card: the text of a task-manager node is read line by line; the
 * task lines become tasks with a category (from a leading marker emoji), an
 * effort estimate in hours (from an "(Effort: Nh)" note, 2 when there is
 * none), a title and a description (split at the first dash).
 */
module TaskParser {
  import opened Strings

  /** The three category markers: U+1F680 rocket, U+1F3AF direct hit,
      U+1F4C8 chart with upwards trend. */
  const Rocket: char := '\U{1F680}'
  const Target: char := '\U{1F3AF}'
  const Chart: char := '\U{1F4C8}'

  predicate IsMarker(c: char)
  {
    c == Rocket || c == Target || c == Chart
  }

  datatype Category = Quick | Core | Growth | Plain
  {
    /** The CSS suffix of the card and badge (`task-quick`, `badge-core`, ...). */
    function Key(): string
    {
      match this
      case Quick => "quick"
      case Core => "core"
      case Growth => "growth"
      case Plain => "task"
    }

    /** The badge text. */
    function Name(): string
    {
      match this
      case Quick => "Quick Win"
      case Core => "Core"
      case Growth => "Growth"
      case Plain => "Task"
    }
  }

  /** One parsed task. */
  datatype Task = Task(category: Category, effort: nat, title: string, description: string)

  /** The effort assumed when a line gives none. */
  const DefaultEffort: nat := 2

  /** The category of a line: from the marker it begins with, if any. */
  function CategoryOf(line: string): (c: Category)
    ensures c != Plain <==> |line| > 0 && IsMarker(line[0])
  {
    if |line| == 0 then Plain
    else if line[0] == Rocket then Quick
    else if line[0] == Target then Core
    else if line[0] == Chart then Growth
    else Plain
  }

  /** `replace` with the pattern `^(🚀|🎯|📈)\s*`: a leading marker and the
      whitespace after it removed. */
  function StripMarker(line: string): string
  {
    if |line| > 0 && IsMarker(line[0]) then TrimStart(line[1..]) else line
  }

  /** `c` is the lower-case ASCII letter `lower` in either case, as the `i`
      flag compares it; any other `lower` must match exactly. */
  predicate SameIgnoringCase(c: char, lower: char)
  {
    c == lower || ('a' <= lower <= 'z' && c as int == lower as int - 32)
  }

  /** The opening `(Effort:` of an effort note, in any letter case. */
  const EffortKey: string := "(effort:"

  predicate EffortKeyAt(s: string, j: nat)
  {
    j + |EffortKey| <= |s| && forall k :: 0 <= k < |EffortKey| ==> SameIgnoringCase(s[j + k], EffortKey[k])
  }

  /** The first index from `k` on that is not whitespace. */
  function SkipSpaces(s: string, k: nat): (r: nat)
    requires k <= |s|
    ensures k <= r <= |s| && AllSpace(s[k..r]) && (r < |s| ==> !IsSpace(s[r]))
    decreases |s| - k
  {
    if k < |s| && IsSpace(s[k]) then SkipSpaces(s, k + 1) else k
  }

  /** The first index from `k` on that is not a digit. */
  function SkipDigits(s: string, k: nat): (r: nat)
    requires k <= |s|
    ensures k <= r <= |s| && AllDigits(s[k..r]) && (r < |s| ==> !IsDigit(s[r]))
    decreases |s| - k
  {
    if k < |s| && IsDigit(s[k]) then SkipDigits(s, k + 1) else k
  }

  /** An occurrence of the effort note: it spans `start` to `end` and
      carries the digits `hours`. */
  datatype EffortNote = EffortNote(start: nat, end: nat, hours: string)

  /** After a key at `j`, the text of `s` is the rest of the note `note`
      whose digits begin at `a`: blanks from the key's end up to `a`, the
      digits `note.hours`, an optional `h` or `H`, and `)` as the note's
      last character. */
  predicate NoteTail(s: string, j: nat, a: nat, note: EffortNote)
  {
    var b := a + |note.hours|;
    && note.start == j && j + |EffortKey| <= a && b < note.end <= |s|
    && AllSpace(s[j + |EffortKey|..a])
    && note.hours != [] && AllDigits(note.hours) && s[a..b] == note.hours
    && s[note.end - 1] == ')'
    && (note.end == b + 1 || (note.end == b + 2 && (s[b] == 'h' || s[b] == 'H')))
  }

  /** The note `\(Effort:\s*(\d+)h?\)` (letters in any case) starting at `j`,
      if there is one. Whitespace and digits never overlap, so the greedy
      runs are the only candidates. */
  function NoteAt(s: string, j: nat): (r: Option<EffortNote>)
    requires j <= |s|
    ensures r.Some? ==> && r.value.start == j && j < r.value.end <= |s|
                        && r.value.hours != [] && AllDigits(r.value.hours)
  {
    if EffortKeyAt(s, j) then NoteAfterKey(s, j) else None
  }

  /** The rest of the note after its key at `j`: blanks, digits, an
      optional `h` and the closing parenthesis. */
  function NoteAfterKey(s: string, j: nat): (r: Option<EffortNote>)
    requires j + |EffortKey| <= |s|
    ensures r.Some? ==> && r.value.start == j && j < r.value.end <= |s|
                        && r.value.hours != [] && AllDigits(r.value.hours)
  {
    var a := SkipSpaces(s, j + |EffortKey|);
    var b := SkipDigits(s, a);
    if a == b then None
    else if b < |s| && s[b] == ')' then Some(EffortNote(j, b + 1, s[a..b]))
    else if b + 1 < |s| && (s[b] == 'h' || s[b] == 'H') && s[b + 1] == ')' then Some(EffortNote(j, b + 2, s[a..b]))
    else None
  }

  /** The leftmost note starting at or after `from`, as `match` and
      `replace` find it. */
  function FindNote(s: string, from: nat): (r: Option<EffortNote>)
    requires from <= |s|
    ensures r.Some? ==> from <= r.value.start <= |s| && NoteAt(s, r.value.start) == r
    decreases |s| - from
  {
    if NoteAt(s, from).Some? then NoteAt(s, from)
    else if from == |s| then None
    else FindNote(s, from + 1)
  }

  /** `effortMatch ? parseInt(effortMatch[1]) : 2` */
  function Effort(line: string): nat
  {
    match FindNote(line, 0)
    case None => DefaultEffort
    case Some(note) => DecimalValue(note.hours)
  }

  /** `replace(/\(Effort:\s*\d+h?\)/i, '')`: the first note removed. */
  function RemoveNote(s: string): (r: string)
    ensures |r| <= |s|
    ensures r == s <==> FindNote(s, 0).None?
  {
    match FindNote(s, 0)
    case None => s
    case Some(note) => s[..note.start] + s[note.end..]
  }

  /** `parseTask(line)`: category and effort from the line, then the text
      without marker and note, trimmed, split at its first dash into title
      and description (the later dashes stay in the description). */
  function ParseTask(line: string): Task
  {
    var text := Trim(RemoveNote(StripMarker(line)));
    var parts := Split(text, "-");
    Task(CategoryOf(line), Effort(line), Trim(parts[0]), Trim(Join(parts[1..], "-")))
  }

  /** The filter: a non-blank line whose trimmed form begins with a marker
      or mentions `Effort:` (here the letter case matters). */
  predicate IsTaskLine(line: string)
  {
    var t := Trim(line);
    t != "" && (IsMarker(t[0]) || Contains(t, "Effort:"))
  }

  /** The tasks shown on the card. */
  function Tasks(text: string): seq<Task>
  {
    Map(Filter(Lines(text), (line: string) => IsTaskLine(line)), (line: string) => ParseTask(line))
  }

  /** The message shown instead of cards when no task is found:
      `data.label || 'Generating tasks...'`. */
  function EmptyMessage(text: string): (r: Option<string>)
    ensures r.None? <==> Tasks(text) != []
    ensures r.Some? ==> r.value == if text == "" then "Generating tasks..." else text
  {
    if Tasks(text) != [] then None
    else if text != "" then Some(text)
    else Some("Generating tasks...")
  }

  /** The title holds no dash and is trimmed. */
  lemma TitleHasNoDash(line: string)
    ensures '-' !in ParseTask(line).title
    ensures Trim(ParseTask(line).title) == ParseTask(line).title
  {
    var text := Trim(RemoveNote(StripMarker(line)));
    var parts := Split(text, "-");
    AbsentChar(parts[0], '-');
    TrimKeepsAbsent(parts[0], '-');
    TrimIdempotent(parts[0]);
  }

  /** The split at the first dash: the title is the trimmed text before the
      first dash and the description the trimmed text after it, or the
      whole text and nothing when there is no dash. */
  lemma TitleAndDescription(line: string)
    ensures var text := Trim(RemoveNote(StripMarker(line)));
      var t := ParseTask(line);
      match Find(text, "-")
      case None => t.title == text && t.description == ""
      case Some(i) => t.title == Trim(text[..i]) && t.description == Trim(text[i + 1..])
  {
    var text := Trim(RemoveNote(StripMarker(line)));
    match Find(text, "-")
    case None =>
      SplitWithout(text, "-");
      TrimIdempotent(RemoveNote(StripMarker(line)));
    case Some(i) =>
      SplitAt(text, "-", i);
      JoinSplit(text[i + 1..], "-");
  }

  /** Lines are judged one by one: the tasks of two stacked blocks are the
      tasks of the first followed by those of the second. */
  lemma TasksAround(a: string, b: string)
    ensures Tasks(a + "\n" + b) == Tasks(a) + Tasks(b)
  {
    SplitAround(a, '\n', b);
    assert a + "\n" + b == a + ['\n'] + b;
    FilterAppend(Lines(a), Lines(b), (line: string) => IsTaskLine(line));
    MapAppend(Filter(Lines(a), (line: string) => IsTaskLine(line)),
              Filter(Lines(b), (line: string) => IsTaskLine(line)),
              (line: string) => ParseTask(line));
  }

  /** A text of one line gives one task exactly when the line is a task line. */
  lemma TasksOfLine(line: string)
    requires '\n' !in line
    ensures Tasks(line) == if IsTaskLine(line) then [ParseTask(line)] else []
  {
    FindAbsentChar(line, '\n');
    SplitWithout(line, "\n");
  }

  /** An empty node shows the "Generating tasks..." message. */
  lemma EmptyNodeWaits()
    ensures Tasks("") == [] && EmptyMessage("") == Some("Generating tasks...")
  {
    FindAbsentChar("", '\n');
    SplitWithout("", "\n");
    assert !IsTaskLine("");
  }

  /** Each task is the parse of a task line of the text. */
  lemma TaskFromLine(text: string, k: nat)
    requires k < |Tasks(text)|
    ensures exists line :: line in Lines(text) && IsTaskLine(line) && Tasks(text)[k] == ParseTask(line)
  {
    var kept := Filter(Lines(text), (line: string) => IsTaskLine(line));
    var line := kept[k];
    assert Tasks(text)[k] == ParseTask(line);
    FilterMembers(Lines(text), (line: string) => IsTaskLine(line), line);
    assert line in Lines(text) && IsTaskLine(line);
  }

  /** A note begins with a parenthesis. */
  lemma NoteNeedsParen(s: string, j: nat)
    requires j <= |s| && (j < |s| ==> s[j] != '(')
    ensures NoteAt(s, j).None?
  {
    if j + |EffortKey| <= |s| {
      assert EffortKey[0] == '(' && !SameIgnoringCase(s[j + 0], EffortKey[0]);
    }
  }

  /** The note found is the leftmost: none starts earlier. */
  lemma {:induction false} FindNoteLeftmost(s: string, from: nat)
    requires from <= |s|
    ensures var r := FindNote(s, from);
      r.Some? ==> forall j :: from <= j < r.value.start ==> NoteAt(s, j).None?
    decreases |s| - from
  {
    if NoteAt(s, from).None? && from < |s| {
      var r := FindNote(s, from + 1);
      assert FindNote(s, from) == r;
      FindNoteLeftmost(s, from + 1);
      if r.Some? {
        forall j | from <= j < r.value.start ensures NoteAt(s, j).None? {
          if j == from {
          } else {
            assert from + 1 <= j;
          }
        }
      }
    }
  }

  /** When no note is found, none starts at any later position. */
  lemma {:induction false} FindNoteNone(s: string, from: nat, j: nat)
    requires from <= j <= |s| && FindNote(s, from).None?
    ensures NoteAt(s, j).None?
    decreases j - from
  {
    if from < j {
      assert FindNote(s, from) == FindNote(s, from + 1);
      FindNoteNone(s, from + 1, j);
    }
  }

  /** Where no note starts, none is found. */
  lemma {:induction false} NoNoteFrom(s: string, from: nat)
    requires from <= |s|
    requires forall j :: from <= j <= |s| ==> NoteAt(s, j).None?
    ensures FindNote(s, from).None?
    decreases |s| - from
  {
    if from < |s| {
      NoNoteFrom(s, from + 1);
    }
  }

  /** Text without an opening parenthesis holds no note. */
  lemma NoNote(s: string)
    requires '(' !in s
    ensures FindNote(s, 0).None?
  {
    forall j | 0 <= j <= |s| ensures NoteAt(s, j).None? {
      NoteNeedsParen(s, j);
    }
    NoNoteFrom(s, 0);
  }

  /** A line with no note estimates the default two hours and keeps its text. */
  lemma NoNoteDefault(line: string)
    requires '(' !in line
    ensures Effort(line) == DefaultEffort && RemoveNote(line) == line
  {
    NoNote(line);
  }

  /** A note at `j` with none between `from` and `j` is the one found. */
  lemma {:induction false} FindNoteAt(s: string, from: nat, j: nat, note: EffortNote)
    requires from <= j <= |s| && NoteAt(s, j) == Some(note)
    requires forall i :: from <= i < j ==> NoteAt(s, i).None?
    ensures FindNote(s, from) == Some(note)
    decreases j - from
  {
    if from < j {
      FindNoteAt(s, from + 1, j, note);
    }
  }

  /** The first note after a text without an opening parenthesis is the one
      found. */
  lemma LeftmostNote(s: string, j: nat, note: EffortNote)
    requires j <= |s| && NoteAt(s, j) == Some(note)
    requires '(' !in s[..j]
    ensures FindNote(s, 0) == Some(note)
  {
    forall i | 0 <= i < j ensures NoteAt(s, i).None? {
      assert s[i] == s[..j][i];
      NoteNeedsParen(s, i);
    }
    FindNoteAt(s, 0, j, note);
  }

  /** A found note has the full shape: blanks after the key, the digits
      it carries taken from `s`, an optional `h` or `H` and `)`. */
  lemma NoteAfterKeyShape(s: string, j: nat)
    requires j + |EffortKey| <= |s|
    ensures NoteAfterKey(s, j).Some? ==> exists a :: NoteTail(s, j, a, NoteAfterKey(s, j).value)
  {
    var a := SkipSpaces(s, j + |EffortKey|);
    if NoteAfterKey(s, j).Some? {
      assert NoteTail(s, j, a, NoteAfterKey(s, j).value);
    }
  }

  /** The blank run from `k` ends exactly at the first non-blank `a`. */
  lemma {:induction false} BlankRun(s: string, k: nat, a: nat)
    requires k <= a < |s| && AllSpace(s[k..a]) && !IsSpace(s[a])
    ensures SkipSpaces(s, k) == a
    decreases a - k
  {
    if k < a {
      assert IsSpace(s[k..a][0]);
      assert s[k + 1..a] == s[k..a][1..];
      BlankRun(s, k + 1, a);
    }
  }

  /** A key followed by the rest of a note is that note, whatever the letter
      case of the key, the blanks and the `h`. */
  lemma NoteOfShape(s: string, j: nat, a: nat, note: EffortNote)
    requires EffortKeyAt(s, j) && NoteTail(s, j, a, note)
    ensures NoteAt(s, j) == Some(note)
  {
    var b := a + |note.hours|;
    assert s[a] == note.hours[0];
    BlankRun(s, j + |EffortKey|, a);
    DigitRun(s, a, note.hours);
  }

  /** `NoteAt` recognises exactly the notes of the full shape. */
  lemma NoteAtIff(s: string, j: nat, note: EffortNote)
    requires j <= |s|
    ensures NoteAt(s, j) == Some(note) <==> EffortKeyAt(s, j) && exists a :: NoteTail(s, j, a, note)
  {
    if NoteAt(s, j) == Some(note) {
      NoteAfterKeyShape(s, j);
    }
    if EffortKeyAt(s, j) && exists a :: NoteTail(s, j, a, note) {
      var a :| NoteTail(s, j, a, note);
      NoteOfShape(s, j, a, note);
    }
  }

  /** The first note of a line decides both the effort and what is cut out. */
  lemma FirstNote(s: string, j: nat, a: nat, note: EffortNote)
    requires EffortKeyAt(s, j) && NoteTail(s, j, a, note)
    requires forall i :: 0 <= i < j ==> NoteAt(s, i).None?
    ensures Effort(s) == DecimalValue(note.hours)
    ensures RemoveNote(s) == s[..j] + s[note.end..]
  {
    NoteOfShape(s, j, a, note);
    FindNoteAt(s, 0, j, note);
  }

  /** `(Effort: ` at `j`, then the digits `d`, then `h)`, is a note carrying `d`. */
  lemma CapitalNote(s: string, j: nat, d: string)
    requires d != [] && AllDigits(d)
    requires j + 9 + |d| + 2 <= |s|
    requires s[j..j + 8] == "(Effort:" && s[j + 8] == ' '
    requires s[j + 9..j + 9 + |d|] == d && s[j + 9 + |d|] == 'h' && s[j + 9 + |d| + 1] == ')'
    ensures NoteAt(s, j) == Some(EffortNote(j, j + 9 + |d| + 2, d))
  {
    var a := j + 9;
    KeySpellings(s, j);
    assert s[j + |EffortKey|..a] == [s[j + 8]];
    assert NoteTail(s, j, a, EffortNote(j, a + |d| + 2, d));
    NoteOfShape(s, j, a, EffortNote(j, a + |d| + 2, d));
  }

  /** `(Effort: nh)` placed after a prefix is a note there carrying the
      numeral's digits. */
  lemma NoteAfterPrefix(prefix: string, n: nat, suffix: string)
    ensures var d := NatToString(n);
      var j := |prefix|;
      NoteAt(prefix + "(Effort: " + d + "h)" + suffix, j) == Some(EffortNote(j, j + 9 + |d| + 2, d))
  {
    var d := NatToString(n);
    var s := prefix + "(Effort: " + d + "h)" + suffix;
    var j := |prefix|;
    assert s[j..j + 8] == "(Effort:" && s[j + 8] == ' ';
    assert s[j + 9..j + 9 + |d|] == d && s[j + 9 + |d|] == 'h' && s[j + 9 + |d| + 1] == ')';
    CapitalNote(s, j, d);
  }

  /** `(Effort: nh)` after a text without parentheses is the note found. */
  lemma NoteFound(prefix: string, n: nat, suffix: string)
    requires '(' !in prefix
    ensures var d := NatToString(n);
      var j := |prefix|;
      FindNote(prefix + "(Effort: " + d + "h)" + suffix, 0) == Some(EffortNote(j, j + 9 + |d| + 2, d))
  {
    var d := NatToString(n);
    var s := prefix + "(Effort: " + d + "h)" + suffix;
    var j := |prefix|;
    NoteAfterPrefix(prefix, n, suffix);
    assert s[..j] == prefix;
    LeftmostNote(s, j, EffortNote(j, j + 9 + |d| + 2, d));
  }

  /** A note with a numeral after a text without parentheses gives that many
      hours: `text (Effort: nh) ...` estimates n. */
  lemma NoteEffort(prefix: string, n: nat, suffix: string)
    requires '(' !in prefix
    ensures Effort(prefix + "(Effort: " + NatToString(n) + "h)" + suffix) == n
  {
    NoteFound(prefix, n, suffix);
    DecimalValueOfNatToString(n);
  }

  /** Cutting the note out of `text (Effort: nh) ...` leaves the text
      around it. */
  lemma NoteRemoved(prefix: string, n: nat, suffix: string)
    requires '(' !in prefix
    ensures RemoveNote(prefix + "(Effort: " + NatToString(n) + "h)" + suffix) == prefix + suffix
  {
    var d := NatToString(n);
    var s := prefix + "(Effort: " + d + "h)" + suffix;
    var j := |prefix|;
    NoteFound(prefix, n, suffix);
    assert s[..j] == prefix && s[j + 9 + |d| + 2..] == suffix;
  }

  /** The key is matched in any letter case, as the `i` flag does. */
  lemma KeySpellings(s: string, j: nat)
    requires j + |EffortKey| <= |s|
    requires s[j..j + |EffortKey|] in {"(effort:", "(Effort:", "(EFFORT:", "(eFfOrT:"}
    ensures EffortKeyAt(s, j)
  {
    var key := s[j..j + |EffortKey|];
    forall k | 0 <= k < |EffortKey| ensures SameIgnoringCase(s[j + k], EffortKey[k]) {
      assert s[j + k] == key[k];
    }
  }

  /** The digit run at `a` covers exactly the digits `d` placed there when a
      non-digit follows. */
  lemma {:induction false} DigitRun(s: string, a: nat, d: string)
    requires a + |d| < |s| && s[a..a + |d|] == d && AllDigits(d) && !IsDigit(s[a + |d|])
    ensures SkipDigits(s, a) == a + |d|
    decreases |d|
  {
    if d != [] {
      assert s[a] == d[0];
      assert s[a + 1..a + 1 + |d[1..]|] == d[1..];
      DigitRun(s, a + 1, d[1..]);
    }
  }

  /** Trimming the indented marked line leaves the marker and the text. */
  lemma TrimIndented(body: string)
    requires body != [] && !IsSpace(body[0]) && !IsSpace(body[|body| - 1])
    ensures Trim(" " + body) == body
  {
    var line := " " + body;
    assert line[1..] == body;
    assert TrimStart(line) == TrimStart(body) == body;
  }

  /** A line that opens with no marker and holds no note nor dash is parsed
      as a plain task titled by the trimmed line, with the default effort and
      no description. */
  lemma UnmarkedParse(line: string)
    requires line == [] || !IsMarker(line[0])
    requires '(' !in line && '-' !in Trim(line)
    ensures ParseTask(line) == Task(Plain, DefaultEffort, Trim(line), "")
  {
    assert StripMarker(line) == line;
    NoNoteDefault(line);
    FindAbsentChar(Trim(line), '-');
    DashlessParse(line, Trim(line));
  }

  /** A line whose cleaned text has no dash is titled by that text and has
      no description. */
  lemma DashlessParse(line: string, text: string)
    requires text == Trim(RemoveNote(StripMarker(line))) && !Contains(text, "-")
    ensures ParseTask(line) == Task(CategoryOf(line), Effort(line), text, "")
  {
    SplitWithout(text, "-");
    TrimIdempotent(RemoveNote(StripMarker(line)));
    assert Trim(Join([], "-")) == "";
  }

  /** Trimming the indented marked line drops the leading blank only. */
  lemma TrimIndentedMarker(title: string)
    requires title != [] && !IsSpace(title[|title| - 1])
    ensures Trim([' ', Rocket, ' '] + title) == [Rocket, ' '] + title
  {
    var body := [Rocket, ' '] + title;
    assert [' ', Rocket, ' '] + title == " " + body;
    assert body[|body| - 1] == title[|title| - 1];
    TrimIndented(body);
  }

  /** A marker after a leading blank makes a task line. */
  lemma IndentedIsTaskLine(title: string)
    requires title != [] && !IsSpace(title[|title| - 1])
    ensures IsTaskLine([' ', Rocket, ' '] + title)
  {
    TrimIndentedMarker(title);
  }

  /** The parser looks at the untrimmed line: the leading blank hides the
      marker. */
  lemma IndentedParse(title: string)
    requires '-' !in title && '(' !in title && title != [] && !IsSpace(title[|title| - 1])
    ensures ParseTask([' ', Rocket, ' '] + title) == Task(Plain, DefaultEffort, [Rocket, ' '] + title, "")
  {
    TrimIndentedMarker(title);
    assert '(' !in [' ', Rocket, ' '] + title && '-' !in [Rocket, ' '] + title;
    UnmarkedParse([' ', Rocket, ' '] + title);
  }

  /** The filter and the parser disagree on indented lines: a marker after a
      leading blank makes the line a task line, but the parser, which looks
      at the untrimmed line, files it as a plain task and leaves the marker
      in the title. */
  lemma IndentedMarker(title: string)
    requires '-' !in title && '(' !in title && title != [] && !IsSpace(title[|title| - 1])
    ensures var line := [' ', Rocket, ' '] + title;
      && IsTaskLine(line)
      && ParseTask(line) == Task(Plain, DefaultEffort, [Rocket, ' '] + title, "")
  {
    IndentedIsTaskLine(title);
    IndentedParse(title);
  }
}
