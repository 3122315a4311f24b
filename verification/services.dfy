/**
 * The pure helpers of internal/service/services.go: the e-mail recipient list,
 * the plain-text message layout, the SendEmail enable guard and the
 * case-insensitive record filter of SearchRecords. The Cloudflare, DingTalk,
 * Telegram and SMTP calls around them are not part of this model.
 */
module Service {
  import opened Wrappers
  import opened Text
  import opened Config

  // ---------------------------------------------------------------------------
  // splitCSVEmails
  // ---------------------------------------------------------------------------

  /** The pieces, each trimmed, those that trim to nothing dropped, in their order. */
  function NonEmptyTrimmed(parts: seq<string>): (r: seq<string>)
    ensures |r| <= |parts|
    ensures forall k :: 0 <= k < |r| ==> r[k] != "" && Trimmed(r[k])
    decreases |parts|
  {
    if parts == [] then []
    else
      var before := NonEmptyTrimmed(parts[..|parts| - 1]);
      var p := TrimSpace(parts[|parts| - 1]);
      if p == "" then before else before + [p]
  }

  /** What splitCSVEmails returns: the comma-separated addresses, trimmed, empties dropped. */
  function CsvEmails(s: string): (r: seq<string>)
    ensures |r| <= Count(s, ',') + 1
    ensures forall k :: 0 <= k < |r| ==> r[k] != "" && Trimmed(r[k])
  {
    NonEmptyTrimmed(Split(s, ','))
  }

  /** When no piece is blank, every piece is kept, trimmed, at its own position. */
  lemma {:induction false} NoBlankPieceKeepsAll(parts: seq<string>)
    requires forall j :: 0 <= j < |parts| ==> TrimSpace(parts[j]) != ""
    ensures |NonEmptyTrimmed(parts)| == |parts|
    ensures forall k :: 0 <= k < |parts| ==> NonEmptyTrimmed(parts)[k] == TrimSpace(parts[k])
    decreases |parts|
  {
    if parts != [] {
      var n := |parts|;
      var prefix := parts[..n - 1];
      forall j | 0 <= j < |prefix|
        ensures TrimSpace(prefix[j]) != ""
      {
        assert prefix[j] == parts[j];
      }
      NoBlankPieceKeepsAll(prefix);
      var before := NonEmptyTrimmed(prefix);
      assert NonEmptyTrimmed(parts) == before + [TrimSpace(parts[n - 1])];
      forall k | 0 <= k < n
        ensures NonEmptyTrimmed(parts)[k] == TrimSpace(parts[k])
      {
        if k < n - 1 {
          assert prefix[k] == parts[k];
        }
      }
    }
  }

  /** Every address of `a` comes before every address of `b` in the list of the pieces of `a` then `b`. */
  lemma {:induction false} NonEmptyTrimmedConcat(a: seq<string>, b: seq<string>)
    ensures NonEmptyTrimmed(a + b) == NonEmptyTrimmed(a) + NonEmptyTrimmed(b)
    decreases |b|
  {
    if b == [] {
      assert a + b == a;
    } else {
      var front := b[..|b| - 1];
      assert (a + b)[..|a + b| - 1] == a + front;
      assert (a + b)[|a + b| - 1] == b[|b| - 1];
      NonEmptyTrimmedConcat(a, front);
    }
  }

  /** The string of white space and commas only. */
  predicate Blank(s: string)
  {
    forall i :: 0 <= i < |s| ==> s[i] == ',' || IsSpace(s[i])
  }

  lemma {:induction false} BlankSplitsToNothing(s: string)
    requires Blank(s)
    ensures NonEmptyTrimmed(Split(s, ',')) == []
    decreases |s|
  {
    if s != [] {
      assert Blank(s[1..]);
      BlankSplitsToNothing(s[1..]);
      var rest := Split(s[1..], ',');
      if s[0] != ',' {
        var first := [s[0]] + rest[0];
        assert Split(s, ',') == [first] + rest[1..];
        assert NonEmptyTrimmed(rest) == [];
        assert rest == [rest[0]] + rest[1..];
        NonEmptyTrimmedConcat([rest[0]], rest[1..]);
        NonEmptyTrimmedConcat([first], rest[1..]);
        assert TrimSpace(rest[0]) == "" by {
          assert NonEmptyTrimmed([rest[0]]) == [];
          assert [rest[0]][..0] == [];
        }
        assert TrimSpace(first) == "" by {
          TrimSpaceOfSpaceLed(first, rest[0]);
        }
        assert NonEmptyTrimmed([first]) == [] by {
          assert [first][..0] == [];
        }
      } else {
        NonEmptyTrimmedConcat([""], rest);
        assert Split(s, ',') == [""] + rest;
        assert NonEmptyTrimmed([""]) == [] by {
          assert [""][..0] == [];
        }
      }
    }
  }

  /** Trimming a string that starts with white space trims the same as trimming the rest. */
  lemma TrimSpaceOfSpaceLed(s: string, rest: string)
    requires s != [] && IsSpace(s[0]) && rest == s[1..]
    ensures TrimSpace(s) == TrimSpace(rest)
  {
    var lo := LeadingSpaces(rest);
    assert LeadingSpaces(s) == lo + 1;
    assert s[lo + 1..] == rest[lo..];
  }

  /** The loop of splitCSVEmails over the pieces of strings.Split. */
  method SplitCsvEmails(s: string) returns (out: seq<string>)
    ensures out == CsvEmails(s)
  {
    var parts := Split(s, ',');
    out := [];
    var i := 0;
    while i < |parts|
      invariant 0 <= i <= |parts|
      invariant out == NonEmptyTrimmed(parts[..i])
    {
      var p := TrimSpace(parts[i]);
      assert parts[..i + 1][..i] == parts[..i];
      if p != "" {
        out := out + [p];
      }
      i := i + 1;
    }
    assert parts[..|parts|] == parts;
  }

  // ---------------------------------------------------------------------------
  // SendEmail's guard
  // ---------------------------------------------------------------------------

  /**
   * SendEmail sends to these recipients, or does nothing: it needs the channel
   * enabled, a host, a non-zero port, a user name, a password, a To field, and at
   * least one address in it.
   */
  function EmailRecipients(e: EmailConfig): (r: Option<seq<string>>)
    ensures r.Some? <==>
      && e.enabled && e.host != "" && e.port != 0 && e.username != "" && e.password != ""
      && e.to != "" && CsvEmails(e.to) != []
    ensures r.Some? ==> r.value == CsvEmails(e.to) && |r.value| >= 1
  {
    if !e.enabled || e.host == "" || e.port == 0 || e.username == "" || e.password == "" || e.to == "" then None
    else
      var to := CsvEmails(e.to);
      if |to| == 0 then None else Some(to)
  }

  /** A To field of only commas and white space sends nothing, even when everything else is set. */
  lemma BlankToSendsNothing(e: EmailConfig)
    requires Blank(e.to)
    ensures EmailRecipients(e) == None
  {
    BlankSplitsToNothing(e.to);
  }

  /** Every recipient SendEmail hands to SMTP is non-empty and has no white space at either end. */
  lemma RecipientsAreTrimmed(e: EmailConfig)
    requires EmailRecipients(e).Some?
    ensures forall k :: 0 <= k < |EmailRecipients(e).value| ==>
      EmailRecipients(e).value[k] != "" && TrimSpace(EmailRecipients(e).value[k]) == EmailRecipients(e).value[k]
  {
    var to := EmailRecipients(e).value;
    forall k | 0 <= k < |to|
      ensures TrimSpace(to[k]) == to[k]
    {
      TrimmedIsFixed(to[k]);
    }
  }

  // ---------------------------------------------------------------------------
  // buildPlainEmail
  // ---------------------------------------------------------------------------

  const Crlf: string := "\r\n"

  /** The five header fields of the plain-text message. */
  function PlainHeaderLines(from: string, to: seq<string>, subject: string): (r: seq<string>)
    ensures |r| == 5
    // none of them is empty, so no header field can stand in for the separating empty line
    ensures forall i :: 0 <= i < |r| ==> r[i] != ""
  {
    ["From: " + from, "To: " + Join(to, ","), "Subject: " + subject,
     "MIME-Version: 1.0", "Content-Type: text/plain; charset=UTF-8"]
  }

  /**
   * buildPlainEmail as written: the header fields and one empty string joined by
   * CRLF, then the body and a final CRLF. The header fields are therefore followed
   * by a single CRLF only.
   */
  function BuildPlainEmail(from: string, to: seq<string>, subject: string, body: string): (r: string)
    ensures r == Join(PlainHeaderLines(from, to, subject), Crlf) + Crlf + body + Crlf
  {
    JoinSnoc(PlainHeaderLines(from, to, subject), "", Crlf);
    Join(PlainHeaderLines(from, to, subject) + [""], Crlf) + body + Crlf
  }

  /**
   * buildPlainEmail with the empty line RFC 5322 section 2.1 requires between
   * the header section and the body: one more empty string among the lines.
   */
  function BuildPlainEmailSeparated(from: string, to: seq<string>, subject: string, body: string): (r: string)
    ensures r == Join(PlainHeaderLines(from, to, subject), Crlf) + Crlf + Crlf + body + Crlf
  {
    JoinSnoc(PlainHeaderLines(from, to, subject), "", Crlf);
    JoinSnoc(PlainHeaderLines(from, to, subject) + [""], "", Crlf);
    assert PlainHeaderLines(from, to, subject) + ["", ""] == PlainHeaderLines(from, to, subject) + [""] + [""];
    Join(PlainHeaderLines(from, to, subject) + ["", ""], Crlf) + body + Crlf
  }

  /** No carriage return and no line feed. */
  predicate SingleLine(s: string)
  {
    forall i :: 0 <= i < |s| ==> s[i] != '\r' && s[i] != '\n'
  }

  /** An empty line starts right after position `i`: a line feed followed by a carriage return. */
  predicate BlankLineAt(s: string, i: int)
  {
    0 <= i < |s| - 1 && s[i] == '\n' && s[i + 1] == '\r'
  }

  /** No empty line anywhere after the first line. */
  predicate NoBlankLine(s: string)
  {
    forall i :: 0 <= i < |s| - 1 ==> !BlankLineAt(s, i)
  }

  lemma NoBlankLineConcat(a: string, b: string)
    requires NoBlankLine(a) && NoBlankLine(b)
    requires a != [] && b != [] ==> !(a[|a| - 1] == '\n' && b[0] == '\r')
    ensures NoBlankLine(a + b)
  {
    forall i | 0 <= i < |a + b| - 1
      ensures !BlankLineAt(a + b, i)
    {
      if i < |a| - 1 {
        assert !BlankLineAt(a, i);
      } else if i >= |a| {
        assert !BlankLineAt(b, i - |a|);
      }
    }
  }

  /** Non-empty single lines joined by CRLF contain no empty line, and neither start with CR nor end with LF. */
  lemma {:induction false} JoinedLinesNoBlankLine(lines: seq<string>)
    requires lines != []
    requires forall k :: 0 <= k < |lines| ==> lines[k] != "" && SingleLine(lines[k])
    ensures var j := Join(lines, Crlf); NoBlankLine(j) && j != [] && j[0] != '\r' && j[|j| - 1] != '\n'
    decreases |lines|
  {
    if |lines| > 1 {
      JoinedLinesNoBlankLine(lines[1..]);
      var head := lines[0];
      var tail := Join(lines[1..], Crlf);
      assert SingleLine(head);
      NoBlankLineConcat(head, Crlf);
      NoBlankLineConcat(head + Crlf, tail);
      assert Join(lines, Crlf) == head + Crlf + tail;
    } else {
      assert SingleLine(lines[0]);
    }
  }

  lemma HeaderLinesAreSingleLines(from: string, to: seq<string>, subject: string)
    requires SingleLine(from) && SingleLine(Join(to, ",")) && SingleLine(subject)
    ensures var lines := PlainHeaderLines(from, to, subject);
      forall k :: 0 <= k < |lines| ==> lines[k] != "" && SingleLine(lines[k])
  {
  }

  /**
   * As written, a one-line body never gets an empty line in front of it: the whole
   * message holds no empty line, so a reader of RFC 5322 takes the body line for
   * one more header line and sees an empty body.
   */
  lemma PlainEmailHasNoBlankLine(from: string, to: seq<string>, subject: string, body: string)
    requires SingleLine(from) && SingleLine(Join(to, ",")) && SingleLine(subject)
    requires body != "" && SingleLine(body)
    ensures NoBlankLine(BuildPlainEmail(from, to, subject, body))
  {
    var lines := PlainHeaderLines(from, to, subject);
    HeaderLinesAreSingleLines(from, to, subject);
    JoinedLinesNoBlankLine(lines);
    var h := Join(lines, Crlf);
    NoBlankLineConcat(h, Crlf);
    NoBlankLineConcat(h + Crlf, body);
    NoBlankLineConcat(h + Crlf + body, Crlf);
  }

  /** The concrete message from "ops@example.com" to "admin@example.com" with body "switched" has no empty line. */
  lemma PlainEmailExample()
    ensures NoBlankLine(BuildPlainEmail("ops@example.com", ["admin@example.com"], "failover", "switched"))
  {
    assert Join(["admin@example.com"], ",") == "admin@example.com";
    PlainEmailHasNoBlankLine("ops@example.com", ["admin@example.com"], "failover", "switched");
  }

  /**
   * With the empty line added, the first empty line of the message is the one
   * right after the header fields, and everything after it is the body and the
   * final CRLF, whatever the body holds.
   */
  lemma SeparatedEmailSplitsAtBlankLine(from: string, to: seq<string>, subject: string, body: string)
    requires SingleLine(from) && SingleLine(Join(to, ",")) && SingleLine(subject)
    ensures var r := BuildPlainEmailSeparated(from, to, subject, body);
      var h := Join(PlainHeaderLines(from, to, subject), Crlf);
      && BlankLineAt(r, |h| + 1)
      && NoBlankLine(r[..|h| + 2])
      && r[..|h|] == h
      && r[|h| + 4..] == body + Crlf
  {
    var lines := PlainHeaderLines(from, to, subject);
    HeaderLinesAreSingleLines(from, to, subject);
    JoinedLinesNoBlankLine(lines);
    var h := Join(lines, Crlf);
    var r := BuildPlainEmailSeparated(from, to, subject, body);
    NoBlankLineConcat(h, Crlf);
    assert r == (h + Crlf) + (Crlf + body + Crlf);
    assert r[..|h| + 2] == h + Crlf;
  }

  // ---------------------------------------------------------------------------
  // SearchRecords
  // ---------------------------------------------------------------------------

  /** The fields of a Cloudflare DNS record the search looks at. */
  datatype DnsRecord = DnsRecord(name: string, content: string, recordType: string)

  /** The lower-cased query occurs in the lower-cased name, content or type. */
  predicate Matches(rec: DnsRecord, query: string): (b: bool)
    ensures query == "" ==> b
  {
    var q := ToLower(query);
    ContainsEmpty(ToLower(rec.name));
    Contains(ToLower(rec.name), q) || Contains(ToLower(rec.content), q) || Contains(ToLower(rec.recordType), q)
  }

  /** The records that match, in their order. */
  function Search(records: seq<DnsRecord>, query: string): (r: seq<DnsRecord>)
    ensures |r| <= |records|
    ensures forall x :: x in r <==> x in records && Matches(x, query)
    decreases |records|
  {
    if records == [] then []
    else
      var before := Search(records[..|records| - 1], query);
      var last := records[|records| - 1];
      assert records == records[..|records| - 1] + [last];
      if Matches(last, query) then before + [last] else before
  }

  /**
   * The search keeps records one by one: a single record is kept iff it matches,
   * and the result for a concatenation is the two results in order, so matching
   * records keep their order and each occurrence is kept.
   */
  lemma {:induction false} SearchConcat(a: seq<DnsRecord>, b: seq<DnsRecord>, query: string)
    ensures Search(a + b, query) == Search(a, query) + Search(b, query)
    ensures |b| == 1 ==> Search(b, query) == if Matches(b[0], query) then b else []
    decreases |b|
  {
    if b == [] {
      assert a + b == a;
    } else {
      var init := b[..|b| - 1];
      assert (a + b)[..|a + b| - 1] == a + init;
      SearchConcat(a, init, query);
      if |b| == 1 {
        assert init == [];
      }
    }
  }

  /** The filter loop of SearchRecords over the already fetched records. */
  method SearchRecords(records: seq<DnsRecord>, query: string) returns (results: seq<DnsRecord>)
    ensures results == Search(records, query)
  {
    results := [];
    var q := ToLower(query);
    var i := 0;
    while i < |records|
      invariant 0 <= i <= |records|
      invariant results == Search(records[..i], query)
    {
      var rec := records[i];
      assert records[..i + 1][..i] == records[..i];
      if Contains(ToLower(rec.name), q) || Contains(ToLower(rec.content), q) || Contains(ToLower(rec.recordType), q) {
        results := results + [rec];
      }
      i := i + 1;
    }
    assert records[..|records|] == records;
  }

  /** An empty query keeps every record. */
  lemma {:induction false} EmptyQueryKeepsAll(records: seq<DnsRecord>)
    ensures Search(records, "") == records
    decreases |records|
  {
    if records != [] {
      var last := records[|records| - 1];
      ContainsEmpty(ToLower(last.name));
      EmptyQueryKeepsAll(records[..|records| - 1]);
    }
  }

  /** The search ignores the case of the query. */
  lemma {:induction false} SearchIgnoresQueryCase(records: seq<DnsRecord>, query: string)
    ensures Search(records, query) == Search(records, ToLower(query))
    decreases |records|
  {
    ToLowerIdempotent(query);
    if records != [] {
      SearchIgnoresQueryCase(records[..|records| - 1], query);
    }
  }
}
