/**
 * The helpers of lib/utils.js: the Google Drive link check, the text of the
 * notification sent to the administrator, and the folder-structure check.
 * All three are pure functions of their arguments.
 */
module DriveUtils {

  // ---------------------------------------------------------------------------
  // validateDriveLink: a substring test
  // ---------------------------------------------------------------------------

  /** The text whose presence anywhere in a link makes it acceptable. */
  const DriveHost: string := "drive.google.com"

  /** `p` occurs in `s` as a contiguous block starting at index `i`. */
  ghost predicate OccursAt(s: string, p: string, i: int)
  {
    0 <= i && i + |p| <= |s| && s[i..i + |p|] == p
  }

  /** `p` is a contiguous substring of `s`. */
  ghost predicate Occurs(s: string, p: string)
  {
    exists i :: OccursAt(s, p, i)
  }

  /** String.prototype.includes: scans `s` left to right for a copy of `p`. */
  function Includes(s: string, p: string): (found: bool)
    ensures found <==> Occurs(s, p)
    decreases |s|
  {
    if p <= s then
      assert OccursAt(s, p, 0);
      true
    else if s == [] then
      false
    else
      var found := Includes(s[1..], p);
      assert forall i :: OccursAt(s[1..], p, i) ==> OccursAt(s, p, i + 1) by {
        forall i | OccursAt(s[1..], p, i) ensures OccursAt(s, p, i + 1) {
          assert s[1..][i..i + |p|] == s[i + 1..i + 1 + |p|];
        }
      }
      assert forall i :: OccursAt(s, p, i) ==> i > 0 && OccursAt(s[1..], p, i - 1) by {
        forall i | OccursAt(s, p, i) ensures i > 0 && OccursAt(s[1..], p, i - 1) {
          assert s[1..][i - 1..i - 1 + |p|] == s[i..i + |p|];
        }
      }
      found
  }

  /** validateDriveLink: the link is accepted exactly when the Drive host name occurs in it. */
  function ValidateDriveLink(link: string): (ok: bool)
    ensures ok <==> Occurs(link, DriveHost)
  {
    Includes(link, DriveHost)
  }

  /** The check looks only for the substring, so text around an accepted link never makes it rejected. */
  lemma PaddedLinkStillValid(prefix: string, link: string, suffix: string)
    requires ValidateDriveLink(link)
    ensures ValidateDriveLink(prefix + link + suffix)
  {
    var i :| OccursAt(link, DriveHost, i);
    var s := prefix + link + suffix;
    assert s[|prefix| + i..|prefix| + i + |DriveHost|] == link[i..i + |DriveHost|];
    assert OccursAt(s, DriveHost, |prefix| + i);
  }

  /** Nothing about the host position is checked: a look-alike host that merely starts with the Drive host is accepted. */
  lemma LookAlikeHostAccepted()
    ensures ValidateDriveLink("https://drive.google.com.example.net/x")
  {
    var s := "https://drive.google.com.example.net/x";
    assert s == "https://" + DriveHost + ".example.net/x";
    assert s[8..8 + |DriveHost|] == DriveHost;
    assert OccursAt(s, DriveHost, 8);
  }

  // ---------------------------------------------------------------------------
  // checkDriveFolderStructure: a placeholder that accepts everything
  // ---------------------------------------------------------------------------

  /** checkDriveFolderStructure: no inspection is made; every link passes. */
  function CheckDriveFolderStructure(driveLink: string): (ok: bool)
    ensures ok
  {
    true
  }

  // ---------------------------------------------------------------------------
  // String.prototype.trim
  // ---------------------------------------------------------------------------

  /** The characters trim() removes: ECMAScript's WhiteSpace and LineTerminator code points. */
  predicate IsWhitespace(c: char)
  {
    c == '\t' || c == '\n' || c == '\U{B}' || c == '\U{C}' || c == '\r' || c == ' '
    || c == '\U{A0}' || c == '\U{1680}' || ('\U{2000}' <= c <= '\U{200A}')
    || c == '\U{2028}' || c == '\U{2029}' || c == '\U{202F}' || c == '\U{205F}'
    || c == '\U{3000}' || c == '\U{FEFF}'
  }

  /** Removes the leading whitespace: the result is the longest suffix of `s` that does not start with whitespace. */
  function TrimStart(s: string): (r: string)
    ensures |r| <= |s| && r == s[|s| - |r|..]
    ensures forall i :: 0 <= i < |s| - |r| ==> IsWhitespace(s[i])
    ensures r == [] || !IsWhitespace(r[0])
    decreases |s|
  {
    if s != [] && IsWhitespace(s[0]) then TrimStart(s[1..]) else s
  }

  /** Removes the trailing whitespace: the result is the longest prefix of `s` that does not end with whitespace. */
  function TrimEnd(s: string): (r: string)
    ensures r <= s
    ensures forall i :: |r| <= i < |s| ==> IsWhitespace(s[i])
    ensures r == [] || !IsWhitespace(r[|r| - 1])
    decreases |s|
  {
    if s != [] && IsWhitespace(s[|s| - 1]) then TrimEnd(s[..|s| - 1]) else s
  }

  /** `r` sits in `s` at index `k`, and everything of `s` before and after it is whitespace. */
  ghost predicate WhitespaceAround(s: string, r: string, k: int)
  {
    && 0 <= k <= |s| - |r| && r == s[k..k + |r|]
    && (forall i :: 0 <= i < k ==> IsWhitespace(s[i]))
    && (forall i :: k + |r| <= i < |s| ==> IsWhitespace(s[i]))
  }

  /**
   * String.prototype.trim: the result is the block of `s` left after removing
   * whitespace from both ends, and neither of its ends is whitespace.
   */
  function Trim(s: string): (r: string)
    ensures exists k :: WhitespaceAround(s, r, k)
    ensures r == [] || (!IsWhitespace(r[0]) && !IsWhitespace(r[|r| - 1]))
  {
    TrimBothEnds(s);
    TrimEnd(TrimStart(s))
  }

  /** Trimming the start and then the end leaves a block of `s` with only whitespace around it. */
  lemma {:induction false} TrimBothEnds(s: string)
    ensures WhitespaceAround(s, TrimEnd(TrimStart(s)), |s| - |TrimStart(s)|)
  {
    WhitespaceAroundParts(s, TrimStart(s), TrimEnd(TrimStart(s)));
  }

  /** A whitespace-only head removed from `s`, then a whitespace-only tail removed from what is left. */
  lemma {:induction false} WhitespaceAroundParts(s: string, t: string, r: string)
    requires |t| <= |s| && t == s[|s| - |t|..]
    requires forall i :: 0 <= i < |s| - |t| ==> IsWhitespace(s[i])
    requires r <= t
    requires forall i :: |r| <= i < |t| ==> IsWhitespace(t[i])
    ensures WhitespaceAround(s, r, |s| - |t|)
  {
    var k := |s| - |t|;
    assert r == s[k..k + |r|];
    forall i | k + |r| <= i < |s| ensures IsWhitespace(s[i]) {
      assert s[i] == t[i - k];
    }
  }

  /** Whitespace appended to a string is removed again by TrimEnd. */
  lemma {:induction false} TrimEndDropsWhitespace(s: string, w: string)
    requires forall i :: 0 <= i < |w| ==> IsWhitespace(w[i])
    ensures TrimEnd(s + w) == TrimEnd(s)
    decreases |w|
  {
    if w == [] {
      assert s + w == s;
    } else {
      var w' := w[..|w| - 1];
      assert (s + w)[..|s + w| - 1] == s + w';
      TrimEndDropsWhitespace(s, w');
    }
  }

  /** TrimEnd never removes anything to the left of a non-whitespace character. */
  lemma {:induction false} TrimEndStopsAt(a: string, b: string)
    requires a != [] && !IsWhitespace(a[|a| - 1])
    ensures TrimEnd(a + b) == a + TrimEnd(b)
    decreases |b|
  {
    if b == [] {
      assert a + b == a;
    } else if IsWhitespace(b[|b| - 1]) {
      assert (a + b)[..|a + b| - 1] == a + b[..|b| - 1];
      TrimEndStopsAt(a, b[..|b| - 1]);
    }
  }

  // ---------------------------------------------------------------------------
  // Lines of a text
  // ---------------------------------------------------------------------------

  /** Lines joined with line breaks between them. */
  function JoinLines(lines: seq<string>): string
  {
    if |lines| == 0 then ""
    else if |lines| == 1 then lines[0]
    else lines[0] + "\n" + JoinLines(lines[1..])
  }

  /** The lines of a text: the pieces between its line breaks. */
  function SplitLines(s: string): (lines: seq<string>)
    ensures |lines| >= 1
    decreases |s|
  {
    if s == [] then [""]
    else
      var rest := SplitLines(s[1..]);
      if s[0] == '\n' then [""] + rest else [[s[0]] + rest[0]] + rest[1..]
  }

  /** A text without line breaks is a single line. */
  lemma {:induction false} SplitSingleLine(a: string)
    requires '\n' !in a
    ensures SplitLines(a) == [a]
    decreases |a|
  {
    if a != [] {
      assert '\n' !in a[1..] by {
        forall c | c in a[1..] ensures c in a { }
      }
      SplitSingleLine(a[1..]);
      assert [a[0]] + a[1..] == a;
    }
  }

  /** A line break ends the first line, and the rest of the text is split on its own. */
  lemma {:induction false} SplitAtBreak(a: string, b: string)
    requires '\n' !in a
    ensures SplitLines(a + "\n" + b) == [a] + SplitLines(b)
    decreases |a|
  {
    var s := a + "\n" + b;
    if a == [] {
      assert s[1..] == b;
    } else {
      assert s[1..] == a[1..] + "\n" + b;
      assert '\n' !in a[1..] by {
        forall c | c in a[1..] ensures c in a { }
      }
      SplitAtBreak(a[1..], b);
      assert [a[0]] + a[1..] == a;
    }
  }

  /** Splitting undoes joining, as long as no line holds a line break of its own. */
  lemma {:induction false} SplitJoin(lines: seq<string>)
    requires |lines| >= 1
    requires forall i :: 0 <= i < |lines| ==> '\n' !in lines[i]
    ensures SplitLines(JoinLines(lines)) == lines
    decreases |lines|
  {
    if |lines| == 1 {
      SplitSingleLine(lines[0]);
    } else {
      SplitAtBreak(lines[0], JoinLines(lines[1..]));
      SplitJoin(lines[1..]);
      assert [lines[0]] + lines[1..] == lines;
    }
  }

  // ---------------------------------------------------------------------------
  // createAdminNotification
  // ---------------------------------------------------------------------------

  /** `${data.key}`: the stored text, or the word "undefined" when the record has no such key. */
  function Field(data: map<string, string>, key: string): string
  {
    if key in data then data[key] else "undefined"
  }

  const Header: string := "📢 New Project Submitted!"

  /** The record keys shown in the summary, in the order of its lines. */
  const SummaryKeys: seq<string> :=
    ["client_name", "room_type", "location", "goal", "what_done", "materials", "features", "drive_link"]

  /** The label that starts each summary line, in the same order as SummaryKeys. */
  const Labels: seq<string> :=
    ["👤 Client: ", "🏗️ Room: ", "📍 Location: ", "🌟 Goal: ", "💪 Work done: ",
     "🧱 Materials: ", "✨ Features: ", "📂 Drive: "]

  /**
   * The lines of the template literal: the header, then each label followed
   * by its field's text, in the order of SummaryKeys.
   */
  function TemplateLines(data: map<string, string>): seq<string>
  {
    [Header] + seq(8, i requires 0 <= i < 8 => Labels[i] + Field(data, SummaryKeys[i]))
  }

  /** The template literal before trim(): its lines, after an opening line break and before a closing line break and two spaces. */
  function Template(data: map<string, string>): string
  {
    "\n" + JoinLines(TemplateLines(data)) + "\n  "
  }

  /**
   * The summary line by line: the template's lines, except that trim() works
   * on the whole message, so the last line loses the trailing whitespace of
   * the Drive link (and, when the link is empty or blank, the space after
   * its label).
   */
  function SummaryLines(data: map<string, string>): seq<string>
  {
    TemplateLines(data)[..8] + ["📂 Drive:" + TrimEnd(" " + Field(data, SummaryKeys[7]))]
  }

  /** Joining one more line appends a line break and that line. */
  lemma {:induction false} JoinLast(lines: seq<string>, x: string)
    requires |lines| >= 1
    ensures JoinLines(lines + [x]) == JoinLines(lines) + "\n" + x
    decreases |lines|
  {
    if |lines| > 1 {
      assert (lines + [x])[1..] == lines[1..] + [x];
      JoinLast(lines[1..], x);
    }
  }

  /**
   * Trimming a block of lines framed by a leading line break and a trailing
   * line break with two spaces: the frame goes, and so does the whitespace at
   * the end of the last line, but nothing before that line's label.
   */
  lemma {:induction false} TrimFramedLines(init: seq<string>, caption: string, tail: string)
    requires |init| >= 1 && init[0] != [] && !IsWhitespace(init[0][0])
    requires caption != [] && !IsWhitespace(caption[|caption| - 1])
    ensures Trim("\n" + JoinLines(init + [caption + tail]) + "\n  ")
         == JoinLines(init + [caption + TrimEnd(tail)])
  {
    var joined := JoinLines(init + [caption + tail]);
    JoinLast(init, caption + tail);
    var upToLabel := JoinLines(init) + "\n" + caption;
    assert joined == upToLabel + tail;
    assert JoinLines(init)[0] == init[0][0];
    assert TrimStart("\n" + joined + "\n  ") == joined + "\n  " by {
      assert ("\n" + joined + "\n  ")[1..] == joined + "\n  ";
    }
    TrimEndDropsWhitespace(joined, "\n  ");
    TrimEndStopsAt(upToLabel, tail);
    JoinLast(init, caption + TrimEnd(tail));
  }

  /** Trimming the template leaves exactly the summary lines joined by line breaks. */
  lemma TemplateTrimmed(data: map<string, string>)
    ensures Trim(Template(data)) == JoinLines(SummaryLines(data))
  {
    var lines := TemplateLines(data);
    var link := Field(data, SummaryKeys[7]);
    assert Labels[7] == "📂 Drive:" + " ";
    assert lines[8] == "📂 Drive:" + (" " + link);
    assert lines == lines[..8] + ["📂 Drive:" + (" " + link)];
    assert lines[..8][0] == Header;
    TrimFramedLines(lines[..8], "📂 Drive:", " " + link);
  }

  /**
   * createAdminNotification: the trimmed template. It starts with the
   * header, has no whitespace at either end, and is the summary lines joined
   * by line breaks.
   */
  function CreateAdminNotification(data: map<string, string>): (text: string)
    ensures text == JoinLines(SummaryLines(data))
    ensures Header <= text
    ensures text != [] && !IsWhitespace(text[0]) && !IsWhitespace(text[|text| - 1])
  {
    TemplateTrimmed(data);
    Trim(Template(data))
  }

  /** No label and not the header holds a line break. */
  lemma LabelsAreSingleLines()
    ensures '\n' !in Header && '\n' !in "📂 Drive:"
    ensures forall i :: 0 <= i < |Labels| ==> '\n' !in Labels[i]
  {
  }

  /**
   * When no field holds a line break, the notification has exactly nine
   * lines: the header, then Client, Room, Location, Goal, Work done,
   * Materials, Features and Drive, each label followed by its field's text.
   */
  lemma NotificationLines(data: map<string, string>)
    requires forall i :: 0 <= i < |SummaryKeys| ==> '\n' !in Field(data, SummaryKeys[i])
    ensures var lines := SplitLines(CreateAdminNotification(data));
      && |lines| == 9
      && lines[0] == Header
      && (forall i :: 0 <= i < 7 ==> lines[i + 1] == Labels[i] + Field(data, SummaryKeys[i]))
      && lines[8] == "📂 Drive:" + TrimEnd(" " + Field(data, SummaryKeys[7]))
  {
    var lines := SummaryLines(data);
    var drive := " " + Field(data, SummaryKeys[7]);
    LabelsAreSingleLines();
    assert '\n' !in TrimEnd(drive) by {
      forall c | c in TrimEnd(drive) ensures c in drive { }
    }
    assert |lines| == 9;
    assert lines[0] == Header;
    assert forall i :: 0 <= i < 7 ==> lines[i + 1] == Labels[i] + Field(data, SummaryKeys[i]);
    assert lines[8] == "📂 Drive:" + TrimEnd(drive);
    forall i | 0 <= i < 9 ensures '\n' !in lines[i] {
      if 1 <= i < 8 {
        assert '\n' !in Labels[i - 1];
      }
    }
    SplitJoin(lines);
  }

  /** A Drive link that is non-empty and does not end in whitespace appears verbatim after its label. */
  lemma DriveLineVerbatim(data: map<string, string>)
    requires Field(data, "drive_link") != []
    requires !IsWhitespace(Field(data, "drive_link")[|Field(data, "drive_link")| - 1])
    ensures SummaryLines(data)[8] == Labels[7] + Field(data, "drive_link")
  {
    var link := Field(data, "drive_link");
    assert TrimEnd(" " + link) == " " + link;
  }
}
