/** The fraud-report wizard (app/report/page.tsx): the five-step cursor and
    its clamped moves, the one-per-line parsing of transaction hashes and bank
    references, the case record `submit` builds and stores, and the
    verification-code field with its Verify gating.  The page's React state
    is the `ReportWizard` object; the clock, `crypto.randomUUID`, the file
    digests and the outcome of the external form submission are parameters. */
module ReportWizard {
  import opened Wrappers
  import opened TextUtil
  import opened CaseTypes
  import opened CaseStorage
  import EmailBase

  // ----- steps -----

  const Steps: seq<string> :=
    ["Select scam type", "Add details", "Add TX hashes / refs", "Upload evidence", "Confirm & submit"]

  const LastStep: nat := |Steps| - 1

  /** `next`: `Math.min(s + 1, steps.length - 1)`. */
  function NextStep(s: nat): (r: nat)
    ensures s < LastStep ==> r == s + 1
    ensures s >= LastStep ==> r == LastStep
  {
    if s + 1 < LastStep then s + 1 else LastStep
  }

  /** `prev`: `Math.max(s - 1, 0)`. */
  function PrevStep(s: nat): (r: nat)
    ensures s > 0 ==> r == s - 1
    ensures s == 0 ==> r == 0
  {
    if s > 0 then s - 1 else 0
  }

  datatype Move = Forward | Back

  /** Where a sequence of Next/Back presses leads from `s`. */
  function Walk(s: nat, moves: seq<Move>): nat
    decreases |moves|
  {
    if moves == [] then s
    else Walk(if moves[0] == Forward then NextStep(s) else PrevStep(s), moves[1..])
  }

  /** However the buttons are pressed, the cursor stays on a step. */
  lemma {:induction false} WalkStaysOnSteps(s: nat, moves: seq<Move>)
    requires s <= LastStep
    ensures Walk(s, moves) <= LastStep
    decreases |moves|
  {
    if moves != [] {
      WalkStaysOnSteps(if moves[0] == Forward then NextStep(s) else PrevStep(s), moves[1..]);
    }
  }

  /** `n` presses of Next from the first step reach step `min(n, 4)`. */
  lemma {:induction false} ForwardPresses(s: nat, n: nat)
    requires s <= LastStep
    ensures Walk(s, seq(n, _ => Forward)) == if s + n < LastStep then s + n else LastStep
    decreases n
  {
    if n > 0 {
      var moves := seq(n, _ => Forward);
      assert moves[0] == Forward;
      assert moves[1..] == seq(n - 1, _ => Forward);
      ForwardPresses(NextStep(s), n - 1);
    }
  }

  // ----- hashes and references -----

  /** No line break anywhere in `s`. */
  predicate OnOneLine(s: string) {
    forall i :: 0 <= i < |s| ==> s[i] != '\n'
  }

  /** `pieces.join('\n')`. */
  function JoinLines(pieces: seq<string>): string {
    if pieces == [] then []
    else if |pieces| == 1 then pieces[0]
    else pieces[0] + "\n" + JoinLines(pieces[1..])
  }

  /** `text.replace(/\n+/g, '\n')`: every maximal run of newlines cut to one. */
  function SqueezeNewlines(text: string): string
    decreases |text|
  {
    if text == [] then []
    else if text[0] == '\n' then "\n" + SqueezeNewlines(text[LeadingNewlines(text)..])
    else [text[0]] + SqueezeNewlines(text[1..])
  }

  /** A line in front of a text passes through the squeeze unchanged. */
  lemma {:induction false} SqueezeAfterLine(a: string, rest: string)
    requires OnOneLine(a)
    ensures SqueezeNewlines(a + rest) == a + SqueezeNewlines(rest)
    decreases |a|
  {
    if a != [] {
      var s := a + rest;
      assert s[0] == a[0];
      assert s[1..] == a[1..] + rest;
      assert forall i :: 0 <= i < |a[1..]| ==> a[1..][i] == a[i + 1];
      SqueezeAfterLine(a[1..], rest);
      assert a == [a[0]] + a[1..];
    } else {
      assert a + rest == rest;
    }
  }

  /** `text.split(/\n+/)`: the pieces between maximal runs of newlines; an
      empty text, or one that starts or ends with a newline, yields an empty
      piece there. */
  function SplitOnNewlineRuns(text: string): (pieces: seq<string>)
    ensures |pieces| >= 1
    ensures forall j :: 0 <= j < |pieces| ==> OnOneLine(pieces[j])
    decreases |text|
  {
    var i := FirstNewline(text);
    if i == |text| then [text]
    else
      var k := LeadingNewlines(text[i..]);
      [text[..i]] + SplitOnNewlineRuns(text[i + k..])
  }

  /** Joined back with single newlines the pieces give the text with every
      newline run squeezed to one; being free of newlines, they are exactly
      the text's pieces between its newline runs. */
  lemma {:induction false} SplitRejoins(text: string)
    ensures JoinLines(SplitOnNewlineRuns(text)) == SqueezeNewlines(text)
    decreases |text|
  {
    var i := FirstNewline(text);
    if i == |text| {
      SqueezeAfterLine(text, []);
      assert text + [] == text;
    } else {
      var head, run := text[..i], text[i..];
      var k := LeadingNewlines(run);
      var rest := SplitOnNewlineRuns(text[i + k..]);
      calc {
        JoinLines(SplitOnNewlineRuns(text));
      == { SplitAtFirstNewline(text, i, k); }
        JoinLines([head] + rest);
      == { SplitRejoins(text[i + k..]);
           assert run[k..] == text[i + k..];
           assert OnOneLine(head);
           JoinAfterRun(head, run, rest); }
        SqueezeNewlines(head + run);
      == { assert head + run == text; }
        SqueezeNewlines(text);
      }
    }
  }

  /** A line, joined to the pieces of what follows the newline run after
      it, gives the squeezed text. */
  lemma {:induction false} JoinAfterRun(head: string, run: string, rest: seq<string>)
    requires OnOneLine(head) && run != [] && run[0] == '\n'
    requires rest != [] && JoinLines(rest) == SqueezeNewlines(run[LeadingNewlines(run)..])
    ensures JoinLines([head] + rest) == SqueezeNewlines(head + run)
  {
    var squeezed := SqueezeNewlines(run[LeadingNewlines(run)..]);
    calc {
      JoinLines([head] + rest);
    == { JoinCons(head, rest); }
      head + "\n" + squeezed;
    == { assert head + "\n" + squeezed == head + ("\n" + squeezed); }
      head + ("\n" + squeezed);
    == { SqueezeRun(run); }
      head + SqueezeNewlines(run);
    == { SqueezeAfterLine(head, run); }
      SqueezeNewlines(head + run);
    }
  }

  /** Joining a piece in front of others puts one newline between them. */
  lemma JoinCons(head: string, rest: seq<string>)
    requires rest != []
    ensures JoinLines([head] + rest) == head + "\n" + JoinLines(rest)
  {
    var all := [head] + rest;
    assert all[0] == head && all[1..] == rest;
  }

  /** A text starting with newlines squeezes them to one. */
  lemma SqueezeRun(run: string)
    requires run != [] && run[0] == '\n'
    ensures SqueezeNewlines(run) == "\n" + SqueezeNewlines(run[LeadingNewlines(run)..])
  {
  }

  /** The position of the first newline, or the length when there is none. */
  function FirstNewline(text: string): (i: nat)
    ensures i <= |text|
    ensures i < |text| ==> text[i] == '\n'
    ensures forall j :: 0 <= j < i ==> text[j] != '\n'
  {
    if text == [] || text[0] == '\n' then 0
    else
      var i := FirstNewline(text[1..]);
      assert forall j :: 1 <= j < i + 1 ==> text[j] == text[1..][j - 1];
      i + 1
  }

  /** Trimming cuts a slice out, so it adds no line break. */
  lemma {:induction false} TrimStaysOnOneLine(p: string)
    requires OnOneLine(p)
    ensures OnOneLine(Trim(p))
  {
    var a := LeadingSpace(p);
    var e := Trim(p);
    assert forall i :: 0 <= i < |e| ==> e[i] == p[a + i];
  }

  /** What survives `.map(s => s.trim()).filter(Boolean)`. */
  predicate IsEntry(e: string) {
    e != [] && Trim(e) == e
  }

  /** A trimmed piece that is not blank is an entry, on one line if the
      piece was. */
  lemma {:induction false} TrimmedPiece(p: string)
    ensures Trim(p) != [] ==> IsEntry(Trim(p))
    ensures OnOneLine(p) ==> OnOneLine(Trim(p))
  {
    TrimOfTrimmed(Trim(p));
    if OnOneLine(p) {
      TrimStaysOnOneLine(p);
    }
  }

  /** The trim of every non-blank piece is among the entries. */
  ghost predicate KeepsEveryTrim(pieces: seq<string>, entries: seq<string>) {
    forall j :: 0 <= j < |pieces| && Trim(pieces[j]) != [] ==> Trim(pieces[j]) in entries
  }

  /** Every entry is the trim of some piece. */
  ghost predicate TrimsOfPieces(pieces: seq<string>, entries: seq<string>) {
    forall e :: e in entries ==> exists j :: 0 <= j < |pieces| && Trim(pieces[j]) == e
  }

  /** `.map(s => s.trim()).filter(Boolean)`: the trim of every non-blank
      piece is kept, and every entry is the trim of some piece. */
  function TrimmedNonEmpty(pieces: seq<string>): (entries: seq<string>)
    ensures |entries| <= |pieces|
    ensures forall e :: e in entries ==> IsEntry(e)
    ensures (forall j :: 0 <= j < |pieces| ==> OnOneLine(pieces[j])) ==> forall e :: e in entries ==> OnOneLine(e)
    ensures KeepsEveryTrim(pieces, entries) && TrimsOfPieces(pieces, entries)
  {
    if pieces == [] then []
    else
      var t := Trim(pieces[0]);
      TrimmedPiece(pieces[0]);
      var rest := TrimmedNonEmpty(pieces[1..]);
      var head := if t != [] then [t] else [];
      KeptPieces(pieces, head, rest);
      head + rest
  }

  /** The trims kept from the first piece and from the others are the trims
      kept from all pieces. */
  lemma KeptPieces(pieces: seq<string>, head: seq<string>, rest: seq<string>)
    requires pieces != [] && head == (if Trim(pieces[0]) != [] then [Trim(pieces[0])] else [])
    requires KeepsEveryTrim(pieces[1..], rest) && TrimsOfPieces(pieces[1..], rest)
    ensures KeepsEveryTrim(pieces, head + rest) && TrimsOfPieces(pieces, head + rest)
  {
    var tail := pieces[1..];
    forall j | 0 <= j < |pieces| && Trim(pieces[j]) != []
      ensures Trim(pieces[j]) in head + rest
    {
      if j > 0 {
        assert pieces[j] == tail[j - 1];
      }
    }
    forall e | e in head + rest
      ensures exists j :: 0 <= j < |pieces| && Trim(pieces[j]) == e
    {
      if e in rest {
        var j :| 0 <= j < |tail| && Trim(tail[j]) == e;
        assert Trim(pieces[j + 1]) == e;
      } else {
        assert Trim(pieces[0]) == e;
      }
    }
  }

  /** The filter keeps the order of the pieces: it distributes over
      concatenation. */
  lemma {:induction false} TrimmedNonEmptyAppend(p: seq<string>, q: seq<string>)
    ensures TrimmedNonEmpty(p + q) == TrimmedNonEmpty(p) + TrimmedNonEmpty(q)
    decreases |p|
  {
    if p != [] {
      var pq := p + q;
      var h := if Trim(p[0]) != [] then [Trim(p[0])] else [];
      var a, b := TrimmedNonEmpty(p[1..]), TrimmedNonEmpty(q);
      calc {
        TrimmedNonEmpty(pq);
      == { assert pq[0] == p[0]; TrimmedNonEmptyCons(pq); }
        h + TrimmedNonEmpty(pq[1..]);
      == { TailOfAppend(p, q); }
        h + TrimmedNonEmpty(p[1..] + q);
      == { TrimmedNonEmptyAppend(p[1..], q); }
        h + (a + b);
      == { AppendAssociates(h, a, b); }
        (h + a) + b;
      == { TrimmedNonEmptyCons(p); }
        TrimmedNonEmpty(p) + b;
      }
    } else {
      assert p + q == q;
    }
  }

  lemma TailOfAppend<T>(p: seq<T>, q: seq<T>)
    requires p != []
    ensures (p + q)[1..] == p[1..] + q
  {
  }

  lemma AppendAssociates<T>(a: seq<T>, b: seq<T>, c: seq<T>)
    ensures a + (b + c) == (a + b) + c
  {
  }

  /** The first piece contributes its trim, unless blank, ahead of the rest. */
  lemma TrimmedNonEmptyCons(pieces: seq<string>)
    requires pieces != []
    ensures TrimmedNonEmpty(pieces)
      == (if Trim(pieces[0]) != [] then [Trim(pieces[0])] else []) + TrimmedNonEmpty(pieces[1..])
  {
  }

  /** The hashes / references one per line: newline runs split, each piece
      trimmed, blank pieces dropped. */
  function ParseLines(text: string): (entries: seq<string>)
    ensures forall e :: e in entries ==> e != [] && Trim(e) == e && OnOneLine(e)
  {
    TrimmedNonEmpty(SplitOnNewlineRuns(text))
  }

  /** A single line parses to itself, trimmed, unless it is blank. */
  lemma {:induction false} OneLine(line: string)
    requires OnOneLine(line)
    ensures ParseLines(line) == if Trim(line) == [] then [] else [Trim(line)]
  {
    assert FirstNewline(line) == |line|;
  }

  /** A line without a newline is one piece. */
  lemma {:induction false} SplitOneLine(a: string)
    requires OnOneLine(a)
    ensures SplitOnNewlineRuns(a) == [a]
  {
    assert FirstNewline(a) == |a|;
  }

  /** The newline after a line is the first one. */
  lemma {:induction false} FirstNewlineAfterLine(a: string, b: string)
    requires OnOneLine(a)
    ensures FirstNewline(a + "\n" + b) == |a|
  {
    var s := a + "\n" + b;
    assert s[|a|] == '\n';
    assert forall j :: 0 <= j < |a| ==> s[j] == a[j];
  }

  /** A text with a newline splits at its first newline run. */
  lemma {:induction false} SplitAtFirstNewline(text: string, i: nat, k: nat)
    requires i == FirstNewline(text) && i < |text| && k == LeadingNewlines(text[i..])
    ensures SplitOnNewlineRuns(text) == [text[..i]] + SplitOnNewlineRuns(text[i + k..])
  {
    var pieces := SplitOnNewlineRuns(text);
    assert pieces == [text[..i]] + SplitOnNewlineRuns(text[i + k..]);
  }

  /** The run of newlines after a line ends its piece, however long it is. */
  lemma {:induction false} SplitAfterLine(a: string, b: string)
    requires OnOneLine(a)
    ensures SplitOnNewlineRuns(a + "\n" + b) == [a] + SplitOnNewlineRuns(b[LeadingNewlines(b)..])
  {
    var s := a + "\n" + b;
    var k := LeadingNewlines(b);
    FirstNewlineAfterLine(a, b);
    assert s[|a|..] == "\n" + b;
    EmailBase.LeadingNewlinesCons("\n", b);
    assert LeadingNewlines(s[|a|..]) == 1 + k;
    assert s[..|a|] == a;
    var rest := b[k..];
    assert s[|a| + (1 + k)..] == rest;
    SplitAfterLineStep(s, a, rest, 1 + k);
  }

  /** A text whose first newline run ends a given line splits there. */
  lemma {:induction false} SplitAfterLineStep(s: string, a: string, rest: string, k: nat)
    requires |a| < |s| && FirstNewline(s) == |a| && k == LeadingNewlines(s[|a|..])
    requires s[..|a|] == a && |a| + k <= |s| && s[|a| + k..] == rest
    ensures SplitOnNewlineRuns(s) == [a] + SplitOnNewlineRuns(rest)
  {
    var i := |a|;
    calc {
      SplitOnNewlineRuns(s);
    == { SplitAtFirstNewline(s, i, k); }
      [s[..i]] + SplitOnNewlineRuns(s[i + k..]);
    == { assert s[..i] == a && s[i + k..] == rest; }
      [a] + SplitOnNewlineRuns(rest);
    }
  }

  /** Newlines at the start of a text only add a blank piece, which the
      filter drops. */
  lemma {:induction false} LeadingNewlinesAreDropped(b: string)
    ensures ParseLines(b) == ParseLines(b[LeadingNewlines(b)..])
  {
    var k := LeadingNewlines(b);
    if k > 0 {
      assert FirstNewline(b) == 0;
      assert b[0..][k..] == b[k..];
      var rest := SplitOnNewlineRuns(b[k..]);
      SplitAtFirstNewline(b, 0, k);
      assert b[..0] == [];
      TrimmedNonEmptyAppend([[]], rest);
    }
  }

  /** Any run of newlines between a line and the rest of a text separates
      their entries. */
  lemma {:induction false} LinesConcatenate(a: string, b: string)
    requires OnOneLine(a)
    ensures ParseLines(a + "\n" + b) == ParseLines(a) + ParseLines(b)
  {
    SplitAfterLine(a, b);
    SplitOneLine(a);
    TrimmedNonEmptyAppend([a], SplitOnNewlineRuns(b[LeadingNewlines(b)..]));
    LeadingNewlinesAreDropped(b);
  }

  // ----- submit -----

  /** A selected file as the page sees it. */
  datatype FileInfo = FileInfo(name: string, size: int, kind: string)

  /** The details typed into steps one and two. */
  datatype ReportForm = ReportForm(kind: string, amount: real, currency: string, timeline: string,
                                   description: string, email: string)

  const SubmittedText: string := "Report submitted. An agent will be assigned in chat shortly."

  /** `files.map((f, i) => ({ ..., hash: hashes[i] }))`: a file without a
      digest at its index gets none. */
  function EvidenceOf(files: seq<FileInfo>, hashes: seq<string>): (items: seq<EvidenceItem>)
    ensures |items| == |files|
    ensures forall i :: 0 <= i < |files| ==>
      && items[i].name == files[i].name && items[i].size == files[i].size && items[i].kind == files[i].kind
      && items[i].hash == (if i < |hashes| then Some(hashes[i]) else None)
  {
    seq(|files|, i requires 0 <= i < |files| =>
      EvidenceItem(files[i].name, files[i].size, files[i].kind, if i < |hashes| then Some(hashes[i]) else None))
  }

  /** The record `submit` stores. */
  function SubmittedRecord(id: string, createdAt: int, form: ReportForm, txHashes: seq<string>, bankRefs: seq<string>,
                           files: seq<FileInfo>, hashes: seq<string>, messageId: string, messageAt: int): (r: CaseRecord)
    ensures r.id == id && r.status == "intake" && r.classification.None? && r.email == Some(form.email)
    ensures r.messages == Some([Message(Some(messageId), "system", SubmittedText, messageAt)])
    ensures |r.evidence| == |files|
    ensures forall i :: 0 <= i < |files| ==> r.evidence[i].hash == (if i < |hashes| then Some(hashes[i]) else None)
    ensures r.txHashes == txHashes && r.bankRefs == bankRefs
  {
    CaseRecord(id, createdAt, form.kind, form.amount, form.currency, form.timeline, form.description, txHashes, bankRefs,
               EvidenceOf(files, hashes), "intake", None, Some(form.email),
               Some([Message(Some(messageId), "system", SubmittedText, messageAt)]))
  }

  /** What the external form endpoint did with the payload. */
  datatype Submission = Accepted | Rejected(status: int) | Threw

  // ----- verification code -----

  predicate IsDigit(c: char) {
    '0' <= c <= '9'
  }

  /** `value.replace(/[^0-9]/g, '')`. */
  function OnlyDigits(s: string): (d: string)
    ensures |d| <= |s|
    ensures forall i :: 0 <= i < |d| ==> IsDigit(d[i])
    ensures (forall i :: 0 <= i < |s| ==> IsDigit(s[i])) ==> d == s
  {
    if s == [] then []
    else
      var rest := OnlyDigits(s[1..]);
      assert forall i :: 1 <= i < |s| ==> s[i] == s[1..][i - 1];
      if IsDigit(s[0]) then [s[0]] + rest else rest
  }

  /** Filtering twice is filtering once. */
  lemma OnlyDigitsIdempotent(s: string)
    ensures OnlyDigits(OnlyDigits(s)) == OnlyDigits(s)
  {
  }

  /** Filtering keeps the order of the digits it keeps. */
  lemma {:induction false} OnlyDigitsAppend(a: string, b: string)
    ensures OnlyDigits(a + b) == OnlyDigits(a) + OnlyDigits(b)
    decreases |a|
  {
    if a == [] {
      assert a + b == b;
    } else {
      assert (a + b)[1..] == a[1..] + b;
      OnlyDigitsAppend(a[1..], b);
    }
  }

  /** `disabled={otp.length !== 6 || verifying}`, negated. */
  predicate VerifyEnabled(otp: string, verifying: bool) {
    |otp| == 6 && !verifying
  }

  /** A code typed through the field enables Verify only as six digits, and
      never while a verification is running. */
  lemma VerifyNeedsSixDigits(raw: string, verifying: bool)
    ensures VerifyEnabled(OnlyDigits(raw), verifying) ==>
      !verifying && |OnlyDigits(raw)| == 6 && forall i :: 0 <= i < 6 ==> IsDigit(OnlyDigits(raw)[i])
    ensures verifying ==> !VerifyEnabled(OnlyDigits(raw), verifying)
  {
  }

  // ----- the page -----

  /** The page's state. */
  class ReportWizard {
    var step: nat
    var form: ReportForm
    var txHashes: seq<string>
    var bankRefs: seq<string>
    var files: seq<FileInfo>
    var hashes: seq<string>
    var showVerify: bool
    var otp: string
    var verifying: bool
    var newCaseId: Option<string>

    ghost predicate Valid()
      reads this
    {
      step <= LastStep && forall i :: 0 <= i < |otp| ==> IsDigit(otp[i])
    }

    /** The `useState` initial values. */
    constructor ()
      ensures step == 0 && form == ReportForm("crypto", 0.0, "USD", "", "", "")
      ensures txHashes == [] && bankRefs == [] && files == [] && hashes == []
      ensures !showVerify && otp == "" && !verifying && newCaseId.None?
      ensures Valid()
    {
      step := 0;
      form := ReportForm("crypto", 0.0, "USD", "", "", "");
      txHashes, bankRefs, files, hashes := [], [], [], [];
      showVerify, otp, verifying, newCaseId := false, "", false, None;
    }

    /** The Next button. */
    method Next()
      requires Valid()
      modifies this
      ensures step == NextStep(old(step)) && Valid()
      ensures form == old(form) && otp == old(otp) && txHashes == old(txHashes) && bankRefs == old(bankRefs)
      ensures files == old(files) && hashes == old(hashes) && showVerify == old(showVerify)
      ensures verifying == old(verifying) && newCaseId == old(newCaseId)
    {
      step := NextStep(step);
    }

    /** The Back button. */
    method Prev()
      requires Valid()
      modifies this
      ensures step == PrevStep(old(step)) && Valid()
      ensures form == old(form) && otp == old(otp) && txHashes == old(txHashes) && bankRefs == old(bankRefs)
      ensures files == old(files) && hashes == old(hashes) && showVerify == old(showVerify)
      ensures verifying == old(verifying) && newCaseId == old(newCaseId)
    {
      step := PrevStep(step);
    }

    /** Typing into the transaction-hash box. */
    method EnterTxHashes(text: string)
      modifies this
      ensures txHashes == ParseLines(text)
      ensures step == old(step) && form == old(form) && bankRefs == old(bankRefs) && files == old(files)
      ensures hashes == old(hashes) && showVerify == old(showVerify) && otp == old(otp)
      ensures verifying == old(verifying) && newCaseId == old(newCaseId)
    {
      txHashes := ParseLines(text);
    }

    /** Typing into the bank-reference box. */
    method EnterBankRefs(text: string)
      modifies this
      ensures bankRefs == ParseLines(text)
      ensures step == old(step) && form == old(form) && txHashes == old(txHashes) && files == old(files)
      ensures hashes == old(hashes) && showVerify == old(showVerify) && otp == old(otp)
      ensures verifying == old(verifying) && newCaseId == old(newCaseId)
    {
      bankRefs := ParseLines(text);
    }

    /** `handleFiles`, first half: the selection replaces the file list at
        once; the digests of the previous selection stay until the new ones
        arrive. */
    method SelectFiles(selected: seq<FileInfo>)
      modifies this
      ensures files == selected && hashes == old(hashes)
      ensures step == old(step) && form == old(form) && txHashes == old(txHashes) && bankRefs == old(bankRefs)
      ensures showVerify == old(showVerify) && otp == old(otp)
      ensures verifying == old(verifying) && newCaseId == old(newCaseId)
    {
      files := selected;
    }

    /** `handleFiles`, second half: `setHashes(hs)` once every digest is
        computed, one per selected file. */
    method DigestsReady(digests: seq<string>)
      modifies this
      ensures hashes == digests && files == old(files)
      ensures step == old(step) && form == old(form) && txHashes == old(txHashes) && bankRefs == old(bankRefs)
      ensures showVerify == old(showVerify) && otp == old(otp)
      ensures verifying == old(verifying) && newCaseId == old(newCaseId)
    {
      hashes := digests;
    }

    /** `submit`: the record goes to the store before the external
        submission; whatever that does (`outcome` is only logged), the
        verification dialog opens.  The two setters touch only the page's
        own state, so they are written ahead of the store call here. */
    method Submit(store: LocalCaseStore, id: string, now: int, messageId: string, messageAt: int, outcome: Submission)
      modifies this, store
      ensures var record := SubmittedRecord(id, now, old(form), old(txHashes), old(bankRefs), old(files), old(hashes),
                                            messageId, messageAt);
        && store.stored == Saved(Upserted(LoadCases(old(store.stored)), record))
        && store.GetCase(id) == Some(record)
      ensures newCaseId == Some(id) && showVerify
      ensures step == old(step) && form == old(form) && txHashes == old(txHashes) && bankRefs == old(bankRefs)
      ensures files == old(files) && hashes == old(hashes) && otp == old(otp) && verifying == old(verifying)
    {
      var record := SubmittedRecord(id, now, form, txHashes, bankRefs, files, hashes, messageId, messageAt);
      newCaseId := Some(id);
      showVerify := true;
      store.UpsertCase(record);
    }

    /** Typing into the code field. */
    method EnterOtp(raw: string)
      requires Valid()
      modifies this
      ensures otp == OnlyDigits(raw) && Valid()
      ensures step == old(step) && form == old(form) && txHashes == old(txHashes) && bankRefs == old(bankRefs)
      ensures files == old(files) && hashes == old(hashes) && showVerify == old(showVerify)
      ensures verifying == old(verifying) && newCaseId == old(newCaseId)
    {
      otp := OnlyDigits(raw);
    }

    /** The Verify button, which the page only lets be pressed when enabled. */
    method PressVerify()
      requires VerifyEnabled(otp, verifying)
      modifies this
      ensures verifying
      ensures step == old(step) && form == old(form) && txHashes == old(txHashes) && bankRefs == old(bankRefs)
      ensures files == old(files) && hashes == old(hashes) && showVerify == old(showVerify)
      ensures otp == old(otp) && newCaseId == old(newCaseId)
    {
      verifying := true;
    }
  }
}
