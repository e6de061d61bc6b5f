/** How the POST handler in server.js splices a formatted record into the inbox text:
    the regular expression `/(## 待处理任务\s*)(\*目前没有新任务\*)?/`, its first match,
    and `String.prototype.replace` with a string replacement, whose `$` patterns are
    expanded as the GetSubstitution operation of ECMA-262 prescribes. */
module Inbox {
  import opened Js
  import opened Wrappers

  const PendingHeading: string := "## 待处理任务"
  const NoTasksPlaceholder: string := "*目前没有新任务*"

  predicate OccursAt(s: string, pat: string, i: nat) {
    i + |pat| <= |s| && s[i..i + |pat|] == pat
  }

  /** The leftmost position at or after `from` where `pat` occurs. */
  function FindFrom(s: string, pat: string, from: nat): (r: Option<nat>)
    requires from <= |s|
    ensures r.Some? ==> from <= r.value <= |s| && OccursAt(s, pat, r.value)
    ensures forall j :: from <= j <= |s| && (r.None? || j < r.value) ==> !OccursAt(s, pat, j)
    decreases |s| - from
  {
    if OccursAt(s, pat, from) then Some(from)
    else if from == |s| then None
    else FindFrom(s, pat, from + 1)
  }

  /** A match of the pending-section pattern: it starts at `start`; `[start, headEnd)` is
      capture 1 (heading and trailing whitespace) and `[headEnd, end)` is capture 2 (the
      placeholder, or empty when that group did not take part). */
  datatype PendingMatch = PendingMatch(start: nat, headEnd: nat, end: nat)

  predicate WellFormed(s: string, m: PendingMatch) {
    m.start + |PendingHeading| <= m.headEnd <= m.end <= |s|
  }

  /** The match the regular expression engine returns, described by what it is rather than
      how it is found: the first occurrence of the heading, the longest run of whitespace
      after it, then the placeholder exactly when it comes next. */
  ghost predicate IsFirstMatch(s: string, m: PendingMatch) {
    && WellFormed(s, m)
    && OccursAt(s, PendingHeading, m.start)
    && (forall i :: 0 <= i < m.start ==> !OccursAt(s, PendingHeading, i))
    && (forall k :: m.start + |PendingHeading| <= k < m.headEnd ==> IsWhitespace(s[k]))
    && (m.headEnd == |s| || !IsWhitespace(s[m.headEnd]))
    && m.end == (if OccursAt(s, NoTasksPlaceholder, m.headEnd)
                 then m.headEnd + |NoTasksPlaceholder| else m.headEnd)
  }

  /** `inboxContent.match(waitingTasksRegex)`. The pattern matches at a position exactly when
      the heading starts there, because `\s*` and the optional group can always match empty;
      the optional group cannot take a placeholder that whitespace would have to give back,
      since the placeholder does not start with whitespace. */
  function MatchPending(s: string): (r: Option<PendingMatch>)
    ensures r.Some? ==> WellFormed(s, r.value) && OccursAt(s, PendingHeading, r.value.start)
  {
    match FindFrom(s, PendingHeading, 0)
    case None => None
    case Some(start) =>
      var headEnd := WhitespaceEnd(s, start + |PendingHeading|);
      var end := if OccursAt(s, NoTasksPlaceholder, headEnd)
                 then headEnd + |NoTasksPlaceholder| else headEnd;
      Some(PendingMatch(start, headEnd, end))
  }

  /** There is no match exactly when the heading occurs nowhere, and a match is the first one. */
  lemma MatchPendingFinds(s: string)
    ensures MatchPending(s).None? <==> forall i :: 0 <= i <= |s| ==> !OccursAt(s, PendingHeading, i)
    ensures MatchPending(s).Some? ==> IsFirstMatch(s, MatchPending(s).value)
  {
  }

  /** The first match is unique: any two matches meeting the description are the same. */
  lemma FirstMatchUnique(s: string, m1: PendingMatch, m2: PendingMatch)
    requires IsFirstMatch(s, m1) && IsFirstMatch(s, m2)
    ensures m1 == m2
  {
  }

  const CaptureCount: nat := 2

  function Capture(s: string, m: PendingMatch, n: nat): string
    requires WellFormed(s, m) && 1 <= n <= CaptureCount
  {
    if n == 1 then s[m.start..m.headEnd] else s[m.headEnd..m.end]
  }

  predicate IsDigit(c: char) {
    '0' <= c <= '9'
  }

  function DigitValue(c: char): nat
    requires IsDigit(c)
  {
    c as int - '0' as int
  }

  /** The replacement text for one match, with the template's `$` patterns expanded:
      `$$` is `$`, `$&` the matched text, `` $` `` the text before the match, `$'` the text
      after it, `$n` and `$nn` a capture (a two-digit reference beyond the two captures is
      read as one digit followed by a literal digit, `$0` and references to missing groups
      stay literal), and any other `$` is itself. */
  function Substitute(s: string, m: PendingMatch, template: string): string
    requires WellFormed(s, m)
    decreases |template|
  {
    if template == [] then []
    else if template[0] != '$' || |template| == 1 then [template[0]] + Substitute(s, m, template[1..])
    else
      var c := template[1];
      if c == '$' then "$" + Substitute(s, m, template[2..])
      else if c == '&' then s[m.start..m.end] + Substitute(s, m, template[2..])
      else if c == '`' then s[..m.start] + Substitute(s, m, template[2..])
      else if c == '\'' then s[m.end..] + Substitute(s, m, template[2..])
      else if IsDigit(c) then
        var twoDigits := |template| >= 3 && IsDigit(template[2])
                         && 10 * DigitValue(c) + DigitValue(template[2]) <= CaptureCount;
        var width := if twoDigits then 2 else 1;
        var index := if twoDigits then 10 * DigitValue(c) + DigitValue(template[2]) else DigitValue(c);
        (if 1 <= index <= CaptureCount then Capture(s, m, index) else template[..1 + width])
        + Substitute(s, m, template[1 + width..])
      else "$" + Substitute(s, m, template[1..])
  }

  /** `s.replace(regex, replacement)` for the match `m`: everything outside the match is kept. */
  function Replace(s: string, m: PendingMatch, replacement: string): string
    requires WellFormed(s, m)
  {
    s[..m.start] + Substitute(s, m, replacement) + s[m.end..]
  }

  /** The new inbox text: under the first pending heading when there is one (the replacement
      is capture 1 followed by the record), otherwise the record appended at the end. */
  function InsertTask(inbox: string, record: string): (r: string)
    ensures MatchPending(inbox).None? ==> r == inbox + record
  {
    match MatchPending(inbox)
    case None => inbox + record
    case Some(m) => Replace(inbox, m, inbox[m.start..m.headEnd] + record)
  }

  /** A template without `$` is inserted literally. */
  lemma {:induction false} SubstituteLiteral(s: string, m: PendingMatch, template: string)
    requires WellFormed(s, m) && '$' !in template
    ensures Substitute(s, m, template) == template
    decreases |template|
  {
    if template != [] {
      assert template[0] in template;
      assert '$' !in template[1..] by {
        forall k | 0 <= k < |template[1..]| ensures template[1..][k] != '$' {
          assert template[1..][k] == template[k + 1];
        }
      }
      SubstituteLiteral(s, m, template[1..]);
    }
  }

  /** A `$`-free prefix of the template comes out unchanged, ahead of the rest's expansion. */
  lemma {:induction false} SubstituteLiteralPrefix(s: string, m: PendingMatch, a: string, b: string)
    requires WellFormed(s, m) && '$' !in a
    ensures Substitute(s, m, a + b) == a + Substitute(s, m, b)
    decreases |a|
  {
    if a == [] {
      assert a + b == b;
    } else {
      assert a[0] in a;
      assert (a + b)[0] == a[0] && (a + b)[1..] == a[1..] + b;
      assert '$' !in a[1..] by {
        forall k | 0 <= k < |a[1..]| ensures a[1..][k] != '$' {
          assert a[1..][k] == a[k + 1];
        }
      }
      SubstituteLiteralPrefix(s, m, a[1..], b);
    }
  }

  /** The heading and the whitespace after it hold no `$`. */
  lemma HeadingHasNoDollar(s: string, m: PendingMatch)
    requires IsFirstMatch(s, m)
    ensures '$' !in s[m.start..m.headEnd]
  {
    var h := s[m.start..m.headEnd];
    forall k | 0 <= k < |h| ensures h[k] != '$' {
      if k < |PendingHeading| {
        assert h[k] == s[m.start..m.start + |PendingHeading|][k] == PendingHeading[k];
      } else {
        assert h[k] == s[m.start + k] && IsWhitespace(s[m.start + k]);
      }
    }
  }

  /** Replacing a match by its `$`-free first capture followed by a template keeps that
      capture and expands only the template. */
  lemma ReplaceAfterCapture(s: string, m: PendingMatch, template: string)
    requires WellFormed(s, m) && '$' !in s[m.start..m.headEnd]
    ensures Replace(s, m, s[m.start..m.headEnd] + template)
              == s[..m.headEnd] + Substitute(s, m, template) + s[m.end..]
  {
    var head := s[m.start..m.headEnd];
    var sub := Substitute(s, m, template);
    var before := s[..m.start];
    var after := s[m.end..];
    calc {
      Replace(s, m, head + template);
      before + Substitute(s, m, head + template) + after;
      { SubstituteLiteralPrefix(s, m, head, template); }
      before + (head + sub) + after;
      { assert before + (head + sub) == (before + head) + sub; }
      (before + head) + sub + after;
      { assert before + head == s[..m.headEnd]; }
      s[..m.headEnd] + sub + after;
    }
  }

  /** With the heading present, what lands after the heading and its whitespace is the
      record with its `$` patterns expanded, and the text after the matched span follows. */
  lemma InsertExpands(inbox: string, record: string)
    requires MatchPending(inbox).Some?
    ensures var m := MatchPending(inbox).value;
      InsertTask(inbox, record) == inbox[..m.headEnd] + Substitute(inbox, m, record) + inbox[m.end..]
  {
    var m := MatchPending(inbox).value;
    MatchPendingFinds(inbox);
    HeadingHasNoDollar(inbox, m);
    ReplaceAfterCapture(inbox, m, record);
  }

  /** With the heading present and no `$` in the record, the record goes right after the
      heading and its whitespace, and the text after the matched span follows it unchanged. */
  lemma InsertUnderHeading(inbox: string, record: string)
    requires MatchPending(inbox).Some? && '$' !in record
    ensures var m := MatchPending(inbox).value;
      InsertTask(inbox, record) == inbox[..m.headEnd] + record + inbox[m.end..]
  {
    InsertExpands(inbox, record);
    SubstituteLiteral(inbox, MatchPending(inbox).value, record);
  }

  /** Read against the inbox: the text before the heading is unchanged, the heading and its
      whitespace are kept, a placeholder right after them is dropped, and all text after
      that follows the record unchanged. */
  lemma InsertKeepsSurroundings(inbox: string, record: string)
    requires MatchPending(inbox).Some? && '$' !in record
    ensures var m := MatchPending(inbox).value;
      var r := InsertTask(inbox, record);
      && |r| == m.headEnd + |record| + (|inbox| - m.end)
      && r[..m.start] == inbox[..m.start]
      && r[m.start..m.headEnd] == inbox[m.start..m.headEnd]
      && r[m.headEnd..m.headEnd + |record|] == record
      && (OccursAt(inbox, NoTasksPlaceholder, m.headEnd) ==>
            r[m.headEnd + |record|..] == inbox[m.headEnd + |NoTasksPlaceholder|..])
      && (!OccursAt(inbox, NoTasksPlaceholder, m.headEnd) ==>
            r[m.headEnd + |record|..] == inbox[m.headEnd..])
  {
    var m := MatchPending(inbox).value;
    InsertUnderHeading(inbox, record);
    var r := InsertTask(inbox, record);
    assert r[..m.headEnd] == inbox[..m.headEnd];
    assert r[..m.start] == inbox[..m.headEnd][..m.start];
    assert r[m.start..m.headEnd] == inbox[..m.headEnd][m.start..];
    assert r[m.headEnd + |record|..] == inbox[m.end..];
  }

  /** Occurrences that end within a common prefix are the same in both texts. */
  lemma OccursWithinPrefix(a: string, b: string, k: nat, pat: string, i: nat)
    requires k <= |a| && k <= |b| && a[..k] == b[..k] && i + |pat| <= k
    ensures OccursAt(a, pat, i) <==> OccursAt(b, pat, i)
  {
    assert a[i..i + |pat|] == a[..k][i..i + |pat|];
    assert b[i..i + |pat|] == b[..k][i..i + |pat|];
  }

  /** Splicing a record that opens with a newline and `#` right after the heading's
      whitespace leaves a text whose first match is the same heading, its whitespace now
      taking in that newline, with no placeholder after it. */
  lemma SpliceFirstMatch(s: string, m: PendingMatch, record: string)
    requires IsFirstMatch(s, m)
    requires |record| >= 2 && record[0] == '\n' && record[1] == '#'
    ensures IsFirstMatch(s[..m.headEnd] + record + s[m.end..],
                         PendingMatch(m.start, m.headEnd + 1, m.headEnd + 1))
  {
    var r := s[..m.headEnd] + record + s[m.end..];
    var n := |PendingHeading|;
    assert r[..m.headEnd] == s[..m.headEnd];
    OccursWithinPrefix(r, s, m.headEnd, PendingHeading, m.start);
    forall i | 0 <= i < m.start ensures !OccursAt(r, PendingHeading, i) {
      OccursWithinPrefix(r, s, m.headEnd, PendingHeading, i);
    }
    forall k | m.start + n <= k < m.headEnd + 1 ensures IsWhitespace(r[k]) {
      if k < m.headEnd {
        assert r[k] == r[..m.headEnd][k] == s[k];
      } else {
        assert r[k] == record[0];
      }
    }
    assert r[m.headEnd + 1] == record[1];
    assert !OccursAt(r, NoTasksPlaceholder, m.headEnd + 1);
  }

  /** After a record that opens with a newline and `#` is inserted under the heading, the
      pattern matches the same heading again, its whitespace now ending after that newline,
      with no placeholder: the heading found first stays the first one. */
  lemma MatchAfterInsert(inbox: string, record: string)
    requires MatchPending(inbox).Some? && '$' !in record
    requires |record| >= 2 && record[0] == '\n' && record[1] == '#'
    ensures var m := MatchPending(inbox).value;
      MatchPending(InsertTask(inbox, record))
        == Some(PendingMatch(m.start, m.headEnd + 1, m.headEnd + 1))
  {
    var m := MatchPending(inbox).value;
    InsertUnderHeading(inbox, record);
    var r := InsertTask(inbox, record);
    var m' := PendingMatch(m.start, m.headEnd + 1, m.headEnd + 1);
    MatchPendingFinds(inbox);
    SpliceFirstMatch(inbox, m, record);
    assert IsFirstMatch(r, m');
    MatchPendingFinds(r);
    assert MatchPending(r).Some? by {
      assert OccursAt(r, PendingHeading, m'.start);
    }
    FirstMatchUnique(r, m', MatchPending(r).value);
  }

  /** A second insertion goes right after the newline that opens the first record. */
  lemma InsertAfterInsert(inbox: string, first: string, second: string)
    requires MatchPending(inbox).Some?
    requires '$' !in first && '$' !in second
    requires |first| >= 2 && first[0] == '\n' && first[1] == '#'
    ensures var h := MatchPending(inbox).value.headEnd;
      var r := InsertTask(inbox, first);
      h + 1 <= |r| && InsertTask(r, second) == r[..h + 1] + second + r[h + 1..]
  {
    MatchAfterInsert(inbox, first);
    InsertUnderHeading(InsertTask(inbox, first), second);
  }

  /** Two insertions under the same heading put the later record first: the second record
      lands between the heading's whitespace and the newline that opens the first record. */
  lemma NewestFirst(inbox: string, first: string, second: string)
    requires MatchPending(inbox).Some?
    requires '$' !in first && '$' !in second
    requires |first| >= 2 && first[0] == '\n' && first[1] == '#'
    ensures var m := MatchPending(inbox).value;
      InsertTask(InsertTask(inbox, first), second)
        == inbox[..m.headEnd] + "\n" + second + first[1..] + inbox[m.end..]
  {
    var m := MatchPending(inbox).value;
    var p := inbox[..m.headEnd];
    var q := inbox[m.end..];
    InsertUnderHeading(inbox, first);
    InsertAfterInsert(inbox, first, second);
    var r := InsertTask(inbox, first);
    SpliceAfterFirst(p, first, q, second, m.headEnd, r, InsertTask(r, second));
  }

  /** Text placed after the opening newline of the middle part of `p + f + q`. */
  lemma SpliceAfterFirst(p: string, f: string, q: string, x: string, h: nat, r: string, spliced: string)
    requires f != [] && f[0] == '\n'
    requires r == p + f + q && h == |p| && h + 1 <= |r|
    requires spliced == r[..h + 1] + x + r[h + 1..]
    ensures spliced == p + "\n" + x + f[1..] + q
  {
    assert r[..h + 1] == p + "\n";
    assert r[h + 1..] == f[1..] + q;
  }

  /** Between `$`-free text, `$$` in a template expands to a single `$`. */
  lemma SubstituteDoubledDollar(s: string, m: PendingMatch, a: string, b: string)
    requires WellFormed(s, m) && '$' !in a && '$' !in b
    ensures Substitute(s, m, a + "$$" + b) == a + "$" + b
  {
    assert a + "$$" + b == a + ("$$" + b);
    SubstituteLiteralPrefix(s, m, a, "$$" + b);
    assert ("$$" + b)[2..] == b;
    SubstituteLiteral(s, m, b);
  }

  /** `$$` in a record whose other text has no `$` comes out as a single `$`: the inserted
      text then differs from the record. */
  lemma DoubledDollarCollapses(inbox: string, before: string, after: string)
    requires MatchPending(inbox).Some?
    requires '$' !in before && '$' !in after
    ensures var m := MatchPending(inbox).value;
      InsertTask(inbox, before + "$$" + after)
        == inbox[..m.headEnd] + before + "$" + after + inbox[m.end..]
  {
    var m := MatchPending(inbox).value;
    var p := inbox[..m.headEnd];
    var q := inbox[m.end..];
    InsertExpands(inbox, before + "$$" + after);
    SubstituteDoubledDollar(inbox, m, before, after);
    assert p + (before + "$" + after) + q == p + before + "$" + after + q;
  }
}
