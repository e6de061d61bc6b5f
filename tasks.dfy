/** The pure half of the task submission path in server.js: validating the request body,
    escaping user text, the clean-up of the body into the stored record, and the markdown
    layout of that record. */
module Tasks {
  import opened Js

  /** A request body as the POST handler reads it: each field is whatever JSON value the
      client sent, `Undefined` when absent. */
  datatype TaskBody = TaskBody(title: JsValue, description: JsValue, priority: JsValue,
                               deadline: JsValue, expected: JsValue, notes: JsValue)

  datatype Validation = Valid | Invalid(message: string)

  const MaxTitleLength: nat := 200
  const MaxDescriptionLength: nat := 2000
  const MissingFieldsMessage: string := "任务标题和描述不能为空"
  const TitleTooLongMessage: string := "任务标题过长（最多200字符）"
  const DescriptionTooLongMessage: string := "任务描述过长（最多2000字符）"

  /** The rules are tried in order: missing title or description first, then the title's
      length, then the description's; the first that fails decides the message. */
  function Validate(body: TaskBody): (r: Validation)
    ensures r == Valid <==>
              && Truthy(body.title) && Truthy(body.description)
              && !LengthExceeds(body.title, MaxTitleLength)
              && !LengthExceeds(body.description, MaxDescriptionLength)
    ensures !Truthy(body.title) || !Truthy(body.description) ==> r == Invalid(MissingFieldsMessage)
    ensures (Truthy(body.title) && Truthy(body.description) && LengthExceeds(body.title, MaxTitleLength))
              ==> r == Invalid(TitleTooLongMessage)
    ensures (Truthy(body.title) && Truthy(body.description) && !LengthExceeds(body.title, MaxTitleLength)
             && LengthExceeds(body.description, MaxDescriptionLength))
              ==> r == Invalid(DescriptionTooLongMessage)
    ensures r == Invalid(DescriptionTooLongMessage) ==>
              !LengthExceeds(body.title, MaxTitleLength) && LengthExceeds(body.description, MaxDescriptionLength)
  {
    if !Truthy(body.title) || !Truthy(body.description) then Invalid(MissingFieldsMessage)
    else if LengthExceeds(body.title, MaxTitleLength) then Invalid(TitleTooLongMessage)
    else if LengthExceeds(body.description, MaxDescriptionLength) then Invalid(DescriptionTooLongMessage)
    else Valid
  }

  /** For non-empty text from the Basic Multilingual Plane the limits are inclusive character
      counts: 200 characters of title and 2000 of description pass, one more is rejected. */
  lemma LengthLimits(body: TaskBody)
    requires body.title.Str? && body.description.Str?
    requires body.title.s != "" && body.description.s != ""
    requires IsBmp(body.title.s) && IsBmp(body.description.s)
    ensures Validate(body) == Valid <==>
              |body.title.s| <= MaxTitleLength && |body.description.s| <= MaxDescriptionLength
    ensures |body.title.s| > MaxTitleLength ==> Validate(body) == Invalid(TitleTooLongMessage)
  {
    BmpLength(body.title.s);
    BmpLength(body.description.s);
  }

  /** The characters `sanitizeInput` replaces by an HTML entity. */
  predicate IsEscaped(c: char) {
    c == '<' || c == '>' || c == '"' || c == '\'' || c == '&'
  }

  /** The characters that can open markup or quote an attribute. */
  predicate IsMarkup(c: char) {
    c == '<' || c == '>' || c == '"' || c == '\''
  }

  /** The entity map: each of the five characters becomes an entity from `&` to `;`,
      any other character stays as it is. */
  function EscapeChar(c: char): (r: string)
    ensures IsEscaped(c) ==> |r| >= 4 && r[0] == '&' && r[|r| - 1] == ';'
    ensures !IsEscaped(c) ==> r == [c]
    ensures forall i :: 0 <= i < |r| ==> !IsMarkup(r[i])
  {
    match c
    case '<' => "&lt;"
    case '>' => "&gt;"
    case '"' => "&quot;"
    case '\'' => "&#39;"
    case '&' => "&amp;"
    case _ => [c]
  }

  /** One left-to-right pass that replaces each escaped character by its entity. */
  function Escape(s: string): (r: string)
    ensures forall i :: 0 <= i < |r| ==> !IsMarkup(r[i])
    ensures |r| >= |s|
  {
    if s == [] then [] else EscapeChar(s[0]) + Escape(s[1..])
  }

  /** `sanitizeInput`: a non-string becomes the empty string. */
  function Sanitize(v: JsValue): (r: string)
    ensures !v.Str? ==> r == ""
    ensures forall i :: 0 <= i < |r| ==> !IsMarkup(r[i])
    ensures v.Str? ==> Unescape(r) == v.s
  {
    if v.Str? then UnescapeEscape(v.s); Escape(v.s) else ""
  }

  function Count(s: string, c: char): nat {
    if s == [] then 0 else (if s[0] == c then 1 else 0) + Count(s[1..], c)
  }

  /** Each `<` and `>` grows the text by 3, `"` by 5, `'` and `&` by 4; nothing else changes length. */
  lemma {:induction false} EscapeLength(s: string)
    ensures |Escape(s)| == |s| + 3 * Count(s, '<') + 3 * Count(s, '>') + 5 * Count(s, '"')
                              + 4 * Count(s, '\'') + 4 * Count(s, '&')
  {
    if s != [] {
      EscapeLength(s[1..]);
    }
  }

  /** Text without any of the five characters passes through unchanged. */
  lemma {:induction false} EscapePlain(s: string)
    requires forall i :: 0 <= i < |s| ==> !IsEscaped(s[i])
    ensures Escape(s) == s
  {
    if s != [] {
      EscapePlain(s[1..]);
    }
  }

  lemma {:induction false} EscapeAppend(a: string, b: string)
    ensures Escape(a + b) == Escape(a) + Escape(b)
  {
    if a != [] {
      var e := EscapeChar(a[0]);
      calc {
        Escape(a + b);
        { assert (a + b)[0] == a[0] && (a + b)[1..] == a[1..] + b; }
        e + Escape(a[1..] + b);
        { EscapeAppend(a[1..], b); }
        e + (Escape(a[1..]) + Escape(b));
        (e + Escape(a[1..])) + Escape(b);
        Escape(a) + Escape(b);
      }
    } else {
      assert a + b == b;
    }
  }

  /** A reference decoder for the five entities, reading left to right. */
  function Unescape(s: string): string
    decreases |s|
  {
    if s == [] then []
    else if "&lt;" <= s then "<" + Unescape(s[4..])
    else if "&gt;" <= s then ">" + Unescape(s[4..])
    else if "&quot;" <= s then "\"" + Unescape(s[6..])
    else if "&#39;" <= s then "'" + Unescape(s[5..])
    else if "&amp;" <= s then "&" + Unescape(s[5..])
    else [s[0]] + Unescape(s[1..])
  }

  /** Decoding what one character escapes to gives that character back, whatever follows. */
  lemma UnescapeEntity(c: char, rest: string)
    ensures Unescape(EscapeChar(c) + rest) == [c] + Unescape(rest)
  {
    var e := EscapeChar(c) + rest;
    if c == '<' {
      assert "&lt;" <= e && e[4..] == rest;
    } else if c == '>' {
      assert e[1] == 'g';
      assert !("&lt;" <= e);
      assert "&gt;" <= e && e[4..] == rest;
    } else if c == '"' {
      assert e[1] == 'q';
      assert !("&lt;" <= e) && !("&gt;" <= e);
      assert "&quot;" <= e && e[6..] == rest;
    } else if c == '\'' {
      assert e[1] == '#';
      assert !("&lt;" <= e) && !("&gt;" <= e) && !("&quot;" <= e);
      assert "&#39;" <= e && e[5..] == rest;
    } else if c == '&' {
      assert e[1] == 'a';
      assert !("&lt;" <= e) && !("&gt;" <= e) && !("&quot;" <= e) && !("&#39;" <= e);
      assert "&amp;" <= e && e[5..] == rest;
    } else {
      assert e[0] == c && e[1..] == rest;
      assert !("&lt;" <= e) && !("&gt;" <= e) && !("&quot;" <= e);
      assert !("&#39;" <= e) && !("&amp;" <= e);
    }
  }

  /** Escaping is a single pass: the `&` of an entity it writes is never escaped again, so
      decoding the entities gives back exactly the input. */
  lemma {:induction false} UnescapeEscape(s: string)
    ensures Unescape(Escape(s)) == s
  {
    if s != [] {
      UnescapeEscape(s[1..]);
      UnescapeEntity(s[0], Escape(s[1..]));
      assert s == [s[0]] + s[1..];
    }
  }

  /** `$` is not escaped: it occurs in the output exactly when it occurs in the input. */
  lemma {:induction false} EscapeKeepsDollar(s: string)
    ensures '$' in Escape(s) <==> '$' in s
  {
    if s != [] {
      EscapeKeepsDollar(s[1..]);
      assert s == [s[0]] + s[1..];
    }
  }

  /** The record the handler builds from a valid body, before formatting. */
  datatype CleanTask = CleanTask(title: string, description: string, priority: JsValue,
                                 deadline: JsValue, expected: string, notes: string)

  const DefaultPriority: string := "中"

  /** The clean-up block of the POST handler: title, description, expected result and notes
      are sanitised; priority (defaulting to 中) and deadline are stored as sent. */
  function Clean(body: TaskBody): CleanTask {
    CleanTask(
      Sanitize(body.title),
      Sanitize(body.description),
      Or(body.priority, Str(DefaultPriority)),
      Or(body.deadline, Str("")),
      Sanitize(Or(body.expected, Str(""))),
      Sanitize(Or(body.notes, Str(""))))
  }

  /** What the clean-up guarantees: no markup character survives in the four sanitised fields,
      each of them decodes back to what the client sent when that was a string, non-strings
      become empty, and priority and deadline are kept verbatim unless falsy. */
  lemma CleanSpec(body: TaskBody)
    ensures var t := Clean(body);
      && (forall i :: 0 <= i < |t.title| ==> !IsMarkup(t.title[i]))
      && (forall i :: 0 <= i < |t.description| ==> !IsMarkup(t.description[i]))
      && (forall i :: 0 <= i < |t.expected| ==> !IsMarkup(t.expected[i]))
      && (forall i :: 0 <= i < |t.notes| ==> !IsMarkup(t.notes[i]))
      && (body.title.Str? ==> Unescape(t.title) == body.title.s)
      && (body.description.Str? ==> Unescape(t.description) == body.description.s)
      && (body.expected.Str? ==> Unescape(t.expected) == body.expected.s)
      && (body.notes.Str? ==> Unescape(t.notes) == body.notes.s)
      && (!body.title.Str? ==> t.title == "")
      && (!body.description.Str? ==> t.description == "")
      && (!Or(body.expected, Str("")).Str? ==> t.expected == "")
      && (!Or(body.notes, Str("")).Str? ==> t.notes == "")
      && t.priority == (if Truthy(body.priority) then body.priority else Str(DefaultPriority))
      && t.deadline == (if Truthy(body.deadline) then body.deadline else Str(""))
  {
  }

  const DefaultDeadline: string := "未设定"
  const DefaultExpected: string := "无特殊要求"
  const DefaultNotes: string := "无"

  /** The record between the title line and the closing rule, chunk by chunk, with the
      priority, deadline, description, expected result and notes already rendered. */
  function FieldParts(priority: string, deadline: string, description: string,
                      expected: string, notes: string): seq<string> {
    [ "\n**优先级**: ", priority,
      "\n**截止时间**: ", deadline,
      "\n**状态**: 待处理\n\n**任务描述**:\n", description,
      "\n\n**预期结果**:\n", expected,
      "\n\n**备注**:\n", notes ]
  }

  function Concat(parts: seq<string>): string {
    if parts == [] then "" else parts[0] + Concat(parts[1..])
  }

  lemma {:induction false} ConcatWithout(parts: seq<string>, c: char)
    requires forall i :: 0 <= i < |parts| ==> c !in parts[i]
    ensures c !in Concat(parts)
  {
    if parts != [] {
      ConcatWithout(parts[1..], c);
    }
  }

  /** `formatTaskForMarkdown` with the id passed in: a blank line, the title line, priority,
      deadline, the status 待处理, then the description, expected-result and notes blocks,
      and a closing rule. */
  function FormatTask(t: CleanTask, id: string): (r: string)
    ensures |r| >= 2 && r[0] == '\n' && r[1] == '#'
    ensures "\n### 任务 " + id + " - " + t.title <= r
    ensures r[|r| - 5..] == "\n---\n"
  {
    var titleLine := "\n### 任务 " + id + " - " + t.title;
    var fields := Concat(FieldParts(ToText(t.priority), ToText(Or(t.deadline, Str(DefaultDeadline))),
                                    t.description, ToText(Or(Str(t.expected), Str(DefaultExpected))),
                                    ToText(Or(Str(t.notes), Str(DefaultNotes)))));
    var rule := "\n\n---\n";
    assert (titleLine + fields + rule)[..|titleLine|] == titleLine;
    assert (titleLine + fields + rule)[|titleLine + fields| + 2..] == rule[2..];
    titleLine + fields + rule
  }

  /** A falsy deadline, an empty expected result and empty notes render exactly as if the
      defaults 未设定, 无特殊要求 and 无 had been entered. */
  lemma FormatDefaults(t: CleanTask, id: string)
    ensures !Truthy(t.deadline) ==>
              FormatTask(t, id) == FormatTask(t.(deadline := Str(DefaultDeadline)), id)
    ensures t.expected == "" ==>
              FormatTask(t, id) == FormatTask(t.(expected := DefaultExpected), id)
    ensures t.notes == "" ==>
              FormatTask(t, id) == FormatTask(t.(notes := DefaultNotes), id)
  {
  }

  /** The record holds a `$` only if one of the values placed into it does. */
  lemma FormatDollarFree(t: CleanTask, id: string)
    requires '$' !in id && '$' !in t.title && '$' !in t.description
    requires '$' !in ToText(t.priority) && '$' !in ToText(t.deadline)
    requires '$' !in t.expected && '$' !in t.notes
    ensures '$' !in FormatTask(t, id)
  {
    var priority := ToText(t.priority);
    var deadline := ToText(Or(t.deadline, Str(DefaultDeadline)));
    var expected := ToText(Or(Str(t.expected), Str(DefaultExpected)));
    var notes := ToText(Or(Str(t.notes), Str(DefaultNotes)));
    FieldPartsDollarFree(priority, deadline, t.description, expected, notes);
    ConcatWithout(FieldParts(priority, deadline, t.description, expected, notes), '$');
  }

  /** Only the rendered values can bring a `$` into the record's fields. */
  lemma FieldPartsDollarFree(priority: string, deadline: string, description: string,
                             expected: string, notes: string)
    requires '$' !in priority && '$' !in deadline && '$' !in description
    requires '$' !in expected && '$' !in notes
    ensures var parts := FieldParts(priority, deadline, description, expected, notes);
      forall i :: 0 <= i < |parts| ==> '$' !in parts[i]
  {
  }

  /** Lines joined by single newlines, the way a multi-line template literal reads. */
  function JoinLines(ls: seq<string>): string {
    if ls == [] then "" else if |ls| == 1 then ls[0] else ls[0] + "\n" + JoinLines(ls[1..])
  }

  lemma JoinLinesAt(ls: seq<string>, k: nat)
    requires k + 1 < |ls|
    ensures JoinLines(ls[k..]) == ls[k] + ("\n" + JoinLines(ls[k + 1..]))
  {
    assert ls[k..][1..] == ls[k + 1..];
  }

  lemma ConcatAt(parts: seq<string>, k: nat, tail: string)
    requires k < |parts|
    ensures Concat(parts[k..]) + tail == parts[k] + (Concat(parts[k + 1..]) + tail)
  {
    assert parts[k..][1..] == parts[k + 1..];
  }

  /** The record line by line: a blank line, the title line, priority, deadline, the status
      待处理, a blank line, the description heading and text, a blank line, the expected-result
      heading and text, a blank line, the notes heading and text, a blank line, the rule `---`
      and a final line break; missing values read as 未设定, 无特殊要求 and 无. */
  lemma FormatLayout(t: CleanTask, id: string)
    ensures FormatTask(t, id) == JoinLines(
      [ "", "### 任务 " + id + " - " + t.title,
        "**优先级**: " + ToText(t.priority),
        "**截止时间**: " + (if Truthy(t.deadline) then ToText(t.deadline) else DefaultDeadline),
        "**状态**: 待处理", "",
        "**任务描述**:", t.description, "",
        "**预期结果**:", (if t.expected != "" then t.expected else DefaultExpected), "",
        "**备注**:", (if t.notes != "" then t.notes else DefaultNotes), "",
        "---", "" ])
  {
    var d := if Truthy(t.deadline) then ToText(t.deadline) else DefaultDeadline;
    var e := if t.expected != "" then t.expected else DefaultExpected;
    var n := if t.notes != "" then t.notes else DefaultNotes;
    assert ToText(Or(t.deadline, Str(DefaultDeadline))) == d;
    assert ToText(Or(Str(t.expected), Str(DefaultExpected))) == e;
    assert ToText(Or(Str(t.notes), Str(DefaultNotes))) == n;
    RecordLayout("### 任务 " + id + " - " + t.title, "\n### 任务 " + id + " - " + t.title,
                 ToText(t.priority), d, t.description, e, n);
  }

  /** The title line followed by the rendered fields and the rule, read line by line. */
  lemma RecordLayout(title: string, titleLine: string, p: string, d: string, desc: string,
                     e: string, n: string)
    requires titleLine == "\n" + title
    ensures titleLine + Concat(FieldParts(p, d, desc, e, n)) + "\n\n---\n" == JoinLines(
      [ "", title, "**优先级**: " + p, "**截止时间**: " + d, "**状态**: 待处理", "",
        "**任务描述**:", desc, "", "**预期结果**:", e, "", "**备注**:", n, "", "---", "" ])
  {
    var ls := [ "", title, "**优先级**: " + p, "**截止时间**: " + d, "**状态**: 待处理", "",
                "**任务描述**:", desc, "", "**预期结果**:", e, "", "**备注**:", n, "", "---", "" ];
    var parts := FieldParts(p, d, desc, e, n);
    JoinSeventeen(ls);
    LinesBridge(title, p, d, desc, e, n);
    assert JoinLines(ls) == "\n" + (title + RecordTail(p, d, desc, e, n));
    ConcatTen(parts, "\n\n---\n");
    Regroup(title, Concat(parts), "\n\n---\n", RecordTail(p, d, desc, e, n));
  }

  lemma Regroup(title: string, fields: string, rule: string, tail: string)
    requires fields + rule == tail
    ensures ("\n" + title) + fields + rule == "\n" + (title + tail)
  {
  }

  /** What follows the title line, written out in one piece. */
  function RecordTail(p: string, d: string, desc: string, e: string, n: string): string {
    "\n**优先级**: " + (p + ("\n**截止时间**: " + (d
      + ("\n**状态**: 待处理\n\n**任务描述**:\n" + (desc + ("\n\n**预期结果**:\n" + (e
      + ("\n\n**备注**:\n" + (n + "\n\n---\n")))))))))
  }

  lemma ConcatTen(parts: seq<string>, z: string)
    requires |parts| == 10
    ensures Concat(parts) + z == parts[0] + (parts[1] + (parts[2] + (parts[3] + (parts[4]
      + (parts[5] + (parts[6] + (parts[7] + (parts[8] + (parts[9] + z)))))))))
  {
    assert parts[10..] == [];
    assert Concat(parts[10..]) + z == z;
    ConcatFive(parts, 5, z);
    ConcatFive(parts, 0, z);
    assert parts[0..] == parts;
  }

  lemma ConcatFive(parts: seq<string>, k: nat, z: string)
    requires k + 5 <= |parts|
    ensures Concat(parts[k..]) + z == parts[k] + (parts[k + 1] + (parts[k + 2] + (parts[k + 3]
      + (parts[k + 4] + (Concat(parts[k + 5..]) + z)))))
  {
    ConcatAt(parts, k + 4, z);
    ConcatAt(parts, k + 3, z);
    ConcatAt(parts, k + 2, z);
    ConcatAt(parts, k + 1, z);
    ConcatAt(parts, k, z);
  }

  lemma JoinSeventeen(ls: seq<string>)
    requires |ls| == 17
    ensures JoinLines(ls) == ls[0] + ("\n" + (ls[1] + ("\n" + (ls[2] + ("\n" + (ls[3]
      + ("\n" + (ls[4] + ("\n" + (ls[5] + ("\n" + (ls[6] + ("\n" + (ls[7]
      + ("\n" + JoinLines(ls[8..]))))))))))))))))
    ensures JoinLines(ls[8..]) == ls[8] + ("\n" + (ls[9] + ("\n" + (ls[10] + ("\n" + (ls[11]
      + ("\n" + (ls[12] + ("\n" + (ls[13] + ("\n" + (ls[14] + ("\n" + (ls[15]
      + ("\n" + ls[16])))))))))))))))
  {
    assert ls[16..] == [ls[16]];
    JoinFour(ls, 12);
    JoinFour(ls, 8);
    JoinFour(ls, 4);
    JoinFour(ls, 0);
    assert ls[0..] == ls;
  }

  lemma JoinFour(ls: seq<string>, k: nat)
    requires k + 4 < |ls|
    ensures JoinLines(ls[k..]) == ls[k] + ("\n" + (ls[k + 1] + ("\n" + (ls[k + 2]
      + ("\n" + (ls[k + 3] + ("\n" + JoinLines(ls[k + 4..]))))))))
  {
    JoinLinesAt(ls, k + 3);
    JoinLinesAt(ls, k + 2);
    JoinLinesAt(ls, k + 1);
    JoinLinesAt(ls, k);
  }

  /** Regrouping the record's lines into the chunks between the rendered values. */
  lemma LinesBridge(title: string, p: string, d: string, desc: string, e: string, n: string)
    ensures "" + ("\n" + (title + ("\n" + (("**优先级**: " + p) + ("\n" + (("**截止时间**: " + d)
      + ("\n" + ("**状态**: 待处理" + ("\n" + ("" + ("\n" + ("**任务描述**:" + ("\n" + (desc
      + ("\n" + ("" + ("\n" + ("**预期结果**:" + ("\n" + (e + ("\n" + ("" + ("\n" + ("**备注**:"
      + ("\n" + (n + ("\n" + ("" + ("\n" + ("---" + ("\n" + "")))))))))))))))))))))))))))))))
      == "\n" + (title + RecordTail(p, d, desc, e, n))
  {
    var rule := "\n" + ("" + ("\n" + ("---" + ("\n" + ""))));
    RuleLines();
    var notes := "\n" + ("" + ("\n" + ("**备注**:" + ("\n" + (n + rule)))));
    NotesLines(n, rule);
    var expected := "\n" + ("" + ("\n" + ("**预期结果**:" + ("\n" + (e + notes)))));
    ExpectedLines(e, notes);
    var status := "\n" + ("**状态**: 待处理" + ("\n" + ("" + ("\n" + ("**任务描述**:"
      + ("\n" + (desc + expected)))))));
    StatusLines(desc, expected);
    var deadline := "\n" + (("**截止时间**: " + d) + status);
    Labelled("**截止时间**: ", d, status, "\n**截止时间**: ");
    var priority := "\n" + (("**优先级**: " + p) + deadline);
    Labelled("**优先级**: ", p, deadline, "\n**优先级**: ");
    assert "" + ("\n" + (title + priority)) == "\n" + (title + priority);
  }

  lemma RuleLines()
    ensures "\n" + ("" + ("\n" + ("---" + ("\n" + "")))) == "\n\n---\n"
  {
  }

  lemma NotesLines(n: string, rest: string)
    ensures "\n" + ("" + ("\n" + ("**备注**:" + ("\n" + (n + rest)))))
            == "\n\n**备注**:\n" + (n + rest)
  {
    TwoLines("", "**备注**:", n, rest, "\n\n**备注**:\n");
  }

  lemma ExpectedLines(e: string, rest: string)
    ensures "\n" + ("" + ("\n" + ("**预期结果**:" + ("\n" + (e + rest)))))
            == "\n\n**预期结果**:\n" + (e + rest)
  {
    TwoLines("", "**预期结果**:", e, rest, "\n\n**预期结果**:\n");
  }

  lemma StatusLines(desc: string, rest: string)
    ensures "\n" + ("**状态**: 待处理" + ("\n" + ("" + ("\n" + ("**任务描述**:" + ("\n" + (desc + rest)))))))
            == "\n**状态**: 待处理\n\n**任务描述**:\n" + (desc + rest)
  {
    ThreeLines("**状态**: 待处理", "", "**任务描述**:", desc, rest,
               "\n**状态**: 待处理\n\n**任务描述**:\n");
  }

  lemma Labelled(heading: string, v: string, rest: string, lit: string)
    requires lit == "\n" + heading
    ensures "\n" + ((heading + v) + rest) == lit + (v + rest)
  {
  }

  lemma TwoLines(a: string, b: string, v: string, rest: string, lit: string)
    requires lit == "\n" + a + "\n" + b + "\n"
    ensures "\n" + (a + ("\n" + (b + ("\n" + (v + rest))))) == lit + (v + rest)
  {
  }

  lemma ThreeLines(a: string, b: string, c: string, v: string, rest: string, lit: string)
    requires lit == "\n" + a + "\n" + b + "\n" + c + "\n"
    ensures "\n" + (a + ("\n" + (b + ("\n" + (c + ("\n" + (v + rest))))))) == lit + (v + rest)
  {
  }
}
