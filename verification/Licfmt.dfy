/** The licence formatter's byte arithmetic. A char stands for one byte of the file. */
module Licfmt {
  import opened Collections

  const PACKAGE: string := "package "

  /** The length of the first line, without its newline. */
  function LineEnd(s: string): (e: nat)
    ensures e <= |s| && (e < |s| ==> s[e] == '\n') && forall k :: 0 <= k < e ==> s[k] != '\n'
  {
    if s == "" || s[0] == '\n' then 0 else 1 + LineEnd(s[1..])
  }

  predicate EndsCR(raw: string) {
    |raw| > 0 && raw[|raw| - 1] == '\r'
  }

  function DropCR(raw: string): string {
    if EndsCR(raw) then raw[..|raw| - 1] else raw
  }

  /** The line, its CR dropped, starts with the word that ends the header: "package " for a Go file. */
  predicate Stops(w: string, raw: string) {
    w <= DropCR(raw)
  }

  function Tail(s: string): string {
    if LineEnd(s) < |s| then s[LineEnd(s) + 1..] else ""
  }

  function Bit(b: bool): nat {
    if b then 1 else 0
  }

  /** The result of scanning to the package line: the lines before it with LF endings, the CRs dropped
      (`own` is whether one was the package line's), and where that line starts: the size if there is none. */
  datatype Scanned = Scanned(buf: string, dropped: nat, at: nat, found: bool, own: bool)

  function Scan(w: string, s: string): (r: Scanned)
    ensures r.at <= |s| && (r.found ==> r.at < |s|)
    decreases |s|
  {
    if s == "" then Scanned("", 0, 0, false, false)
    else
      var raw := s[..LineEnd(s)];
      if Stops(w, raw) then Scanned("", Bit(EndsCR(raw)), 0, true, EndsCR(raw))
      else Before(raw, |s| - |Tail(s)|, Scan(w, Tail(s)))
  }

  /** The scan of a file whose first line is `raw`, given the scan of what follows its first n bytes. */
  function Before(raw: string, n: nat, r: Scanned): Scanned {
    Scanned(DropCR(raw) + "\n" + r.buf, Bit(EndsCR(raw)) + r.dropped, n + r.at, r.found, r.own)
  }

  method NewlineAt(s: string, from: nat) returns (end: nat)
    requires from <= |s|
    ensures end == from + LineEnd(s[from..])
  {
    end := from;
    while end < |s| && s[end] != '\n'
      invariant from <= end <= |s| && LineEnd(s[from..]) == end - from + LineEnd(s[end..])
    {
      assert s[end..][1..] == s[end + 1..];
      end := end + 1;
    }
    assert LineEnd(s[end..]) == 0;
  }

  /** Cutting a file at position p of what follows its first line. */
  lemma CutTail(s: string, p: nat)
    requires LineEnd(s) < |s| && p <= |Tail(s)|
    ensures var n := |s| - |Tail(s)| + p;
            n <= |s| && s[..n] == s[..LineEnd(s)] + "\n" + Tail(s)[..p] && s[n..] == Tail(s)[p..]
  {
    CutAt(s, LineEnd(s), p);
  }

  lemma CutAt(s: string, e: nat, p: nat)
    requires e < |s| && s[e] == '\n' && p <= |s| - e - 1
    ensures s[..e + 1 + p] == s[..e] + "\n" + s[e + 1..][..p] && s[e + 1 + p..] == s[e + 1..][p..]
  {
  }

  /** `scanLines`. */
  method ScanLines(w: string, s: string) returns (buf: string, dropped: nat)
    ensures buf == Scan(w, s).buf && dropped == Scan(w, s).dropped
  {
    buf, dropped := "", 0;
    var from := 0;
    assert s[0..] == s && "" + Scan(w, s).buf == Scan(w, s).buf;
    while from < |s|
      invariant 0 <= from <= |s|
      invariant buf + Scan(w, s[from..]).buf == Scan(w, s).buf
      invariant dropped + Scan(w, s[from..]).dropped == Scan(w, s).dropped
    {
      var stop, line, cr, next := ScanLine(w, s, from);
      if cr { dropped := dropped + 1; }
      if stop {
        assert buf + "" == buf;
        return;
      }
      Regroup(buf, line + "\n", Scan(w, s[next..]).buf);
      Regroup(buf, line, "\n");
      buf := buf + line + "\n";
      from := next;
    }
  }

  /** One turn of the scan: the line at `from` without its CR, and where the next one starts. */
  method ScanLine(w: string, s: string, from: nat) returns (stop: bool, line: string, cr: bool, next: nat)
    requires from < |s|
    ensures stop ==> Scan(w, s[from..]).buf == "" && Scan(w, s[from..]).dropped == Bit(cr)
    ensures !stop ==> from < next <= |s| && Scan(w, s[from..]).buf == line + "\n" + Scan(w, s[next..]).buf
    ensures !stop ==> Scan(w, s[from..]).dropped == Bit(cr) + Scan(w, s[next..]).dropped
  {
    var end := NewlineAt(s, from);
    line := s[from..end];
    assert line == s[from..][..LineEnd(s[from..])];
    cr := EndsCR(line);
    if cr { line := line[..|line| - 1]; }
    stop := w <= line;
    next := if end < |s| then end + 1 else |s|;
    assert Tail(s[from..]) == s[next..];
  }

  /** Replaces every CR LF by LF. */
  function Normalise(s: string): string {
    if s == "" then ""
    else if |s| >= 2 && s[0] == '\r' && s[1] == '\n' then Normalise(s[1..])
    else [s[0]] + Normalise(s[1..])
  }

  lemma {:induction false} NormaliseLine(raw: string, rest: string)
    requires forall k :: 0 <= k < |raw| ==> raw[k] != '\n'
    ensures Normalise(raw + "\n" + rest) == DropCR(raw) + "\n" + Normalise(rest)
  {
    var s := raw + "\n" + rest;
    if raw == "" {
      assert s[1..] == rest;
    } else {
      var t := raw[1..] + "\n" + rest;
      NormaliseLine(raw[1..], rest);
      assert s[1..] == t && s[0] == raw[0] && |s| >= 2 && s[1] == t[0];
      if |raw| == 1 {
        assert t[0] == '\n' && DropCR(raw[1..]) == "";
        assert Normalise(t) == "\n" + Normalise(rest);
      } else {
        assert t[0] == raw[1];
        CRLater(raw);
        Regroup([raw[0]], DropCR(raw[1..]) + "\n", Normalise(rest));
        Regroup([raw[0]], DropCR(raw[1..]), "\n");
      }
    }
  }

  lemma CRLater(raw: string)
    requires |raw| > 1
    ensures DropCR(raw) == [raw[0]] + DropCR(raw[1..])
  {
  }

  lemma {:induction false} NormaliseOpenLine(raw: string)
    requires forall k :: 0 <= k < |raw| ==> raw[k] != '\n'
    ensures Normalise(raw) == raw
  {
    if raw != "" { NormaliseOpenLine(raw[1..]); }
  }

  /** The buffer and the CRs dropped before the package line add up to its position. */
  lemma {:induction false} ScanPosition(w: string, s: string)
    requires Scan(w, s).found
    ensures var r := Scan(w, s); r.at + Bit(r.own) == |r.buf| + r.dropped && r.dropped >= Bit(r.own)
    decreases |s|
  {
    if !Stops(w, s[..LineEnd(s)]) {
      ScanPosition(w, Tail(s));
      assert LineEnd(s) < |s|;
    }
  }

  /** The buffer is the LF form of exactly the bytes before the package line. */
  lemma {:induction false} ScanBuffer(w: string, s: string)
    requires Scan(w, s).found
    ensures Scan(w, s).buf == Normalise(s[..Scan(w, s).at])
    decreases |s|
  {
    var raw := s[..LineEnd(s)];
    if Stops(w, raw) {
      assert s[..0] == "";
    } else {
      var p := Scan(w, Tail(s)).at;
      ScanBuffer(w, Tail(s));
      CutTail(s, p);
      NormaliseLine(raw, Tail(s)[..p]);
      assert s[..Scan(w, s).at] == raw + "\n" + Tail(s)[..p];
    }
  }

  function LineAt(s: string, p: nat): string
    requires p <= |s|
  {
    s[p..][..LineEnd(s[p..])]
  }

  lemma BeforeCut(s: string, p: nat)
    requires LineEnd(s) < |s| && p <= |Tail(s)| && (p > 0 ==> Tail(s)[p - 1] == '\n')
    ensures s[|s| - |Tail(s)| + p - 1] == '\n'
  {
  }

  lemma FirstLine(s: string)
    ensures LineAt(s, 0) == s[..LineEnd(s)]
  {
    assert s[0..] == s;
  }

  lemma LineOfTail(s: string, p: nat)
    requires p <= |Tail(s)| && p < |Tail(s)|
    ensures LineAt(s, |s| - |Tail(s)| + p) == LineAt(Tail(s), p)
  {
    CutTail(s, p);
  }

  /** The scan r of s stopped at a line that starts with the word, and says whether that line ends in CR. */
  ghost predicate StopsAt(w: string, s: string, r: Scanned) {
    r.at <= |s| && Stops(w, LineAt(s, r.at)) && r.own == EndsCR(LineAt(s, r.at))
  }

  lemma StopsAtFirst(w: string, s: string, r: Scanned)
    requires r.at == 0 && Stops(w, s[..LineEnd(s)]) && r.own == EndsCR(s[..LineEnd(s)])
    ensures StopsAt(w, s, r)
  {
    FirstLine(s);
  }

  lemma StopsAtTail(w: string, s: string, raw: string, r: Scanned)
    requires StopsAt(w, Tail(s), r) && r.at < |Tail(s)|
    ensures StopsAt(w, s, Before(raw, |s| - |Tail(s)|, r))
  {
    LineOfTail(s, r.at);
  }

  lemma {:induction false} ScanStops(w: string, s: string)
    requires Scan(w, s).found
    ensures StopsAt(w, s, Scan(w, s))
    decreases |s|
  {
    if Stops(w, s[..LineEnd(s)]) {
      StopsAtFirst(w, s, Scan(w, s));
    } else {
      ScanStops(w, Tail(s));
      StopsAtTail(w, s, s[..LineEnd(s)], Scan(w, Tail(s)));
    }
  }

  /** The byte before that line, if any, is a newline. */
  lemma {:induction false} ScanAfterNewline(w: string, s: string)
    requires Scan(w, s).found
    ensures Scan(w, s).at > 0 ==> s[Scan(w, s).at - 1] == '\n'
    decreases |s|
  {
    if !Stops(w, s[..LineEnd(s)]) {
      ScanAfterNewline(w, Tail(s));
      BeforeCut(s, Scan(w, Tail(s)).at);
    }
  }

  predicate HasLicense(header: string) {
    Contains(header, "Copyright") && Contains(header, "Apache License")
  }

  predicate NotAllowEdit(header: string) {
    Contains(header, "DO NOT EDIT") || Contains(header, "generated by")
  }

  /** Where the rest of the original file is copied from. */
  function Offset(w: string, s: string): nat {
    OffsetOf(Scan(w, s).buf, Scan(w, s).dropped)
  }

  function OffsetOf(buf: string, dropped: nat): nat {
    |buf| + if dropped > 1 then dropped - 1 else 0
  }

  /** `addLicenseHeader`: whether the file was rewritten, and its content afterwards. */
  method AddLicenseHeader(w: string, s: string, license: string) returns (updated: bool, s': string)
    ensures (updated, s') == Formatted(w, s, license)
  {
    var buf, dropped := ScanLines(w, s);
    updated, s' := Rewrite(buf, dropped, s, license);
  }

  /** What follows the scan. */
  method Rewrite(buf: string, dropped: nat, s: string, license: string) returns (updated: bool, s': string)
    ensures (updated, s') == Rewritten(buf, dropped, s, license)
  {
    var kept := HasWord(buf, "Copyright") ;
    if kept { kept := HasWord(buf, "Apache License"); }
    if kept { return false, s; }
    var generated := HasWord(buf, "DO NOT EDIT");
    if !generated { generated := HasWord(buf, "generated by"); }
    if generated { return false, s; }
    var offset := |buf|;
    if dropped > 1 { offset := offset + dropped - 1; }
    updated, s' := true, buf + license + "\n" + (if offset <= |s| then s[offset..] else "");
  }

  method HasWord(s: string, word: string) returns (b: bool)
    ensures b == Contains(s, word)
  {
    b := false;
    var k := 0;
    while k + |word| <= |s|
      invariant 0 <= k && forall j :: 0 <= j < k ==> !WordAt(s, word, j)
    {
      if s[k..k + |word|] == word {
        assert WordAt(s, word, k);
        return true;
      }
      k := k + 1;
    }
  }

  function Formatted(w: string, s: string, license: string): (bool, string) {
    Rewritten(Scan(w, s).buf, Scan(w, s).dropped, s, license)
  }

  function Rewritten(buf: string, dropped: nat, s: string, license: string): (bool, string) {
    if HasLicense(buf) || NotAllowEdit(buf) then (false, s)
    else (true, buf + license + "\n" + Rest(s, OffsetOf(buf, dropped)))
  }

  function Rest(s: string, offset: nat): string {
    if offset <= |s| then s[offset..] else ""
  }

  predicate HeaderHasCR(r: Scanned) {
    r.dropped > Bit(r.own)
  }

  /** The computed offset is the first byte of the package line exactly when the package line itself ends
      in CR or no header line does; otherwise it is the byte before, a newline. */
  lemma OffsetIff(w: string, s: string)
    requires Scan(w, s).found
    ensures var r := Scan(w, s);
            && (Offset(w, s) == r.at <==> r.own || !HeaderHasCR(r))
            && (Offset(w, s) != r.at ==> r.at > 0 && Offset(w, s) == r.at - 1 && s[r.at - 1] == '\n')
  {
    ScanPosition(w, s);
    ScanAfterNewline(w, s);
  }

  /** Uniform endings: no CR before a newline or at the end, or a CR before every newline. */
  predicate UniformLF(s: string) {
    forall k :: 0 <= k < |s| && s[k] == '\r' ==> k + 1 < |s| && s[k + 1] != '\n'
  }

  predicate UniformCRLF(s: string) {
    forall k :: 0 <= k < |s| && s[k] == '\n' ==> k > 0 && s[k - 1] == '\r'
  }

  lemma {:induction false} LFDropsNothing(w: string, s: string)
    requires UniformLF(s)
    ensures Scan(w, s).dropped == 0
    decreases |s|
  {
    if s != "" {
      NoCRInLine(s);
      TailUniform(s);
      LFDropsNothing(w, Tail(s));
    }
  }

  lemma NoCRInLine(s: string)
    requires UniformLF(s)
    ensures !EndsCR(s[..LineEnd(s)])
  {
    var e := LineEnd(s);
    assert e > 0 ==> s[e - 1] == s[..e][e - 1];
  }

  lemma TailUniform(s: string)
    requires UniformLF(s)
    ensures UniformLF(Tail(s))
  {
    var t, n := Tail(s), |s| - |Tail(s)|;
    forall k | 0 <= k < |t| && t[k] == '\r' ensures k + 1 < |t| && t[k + 1] != '\n' {
      assert s[n + k] == '\r';
    }
  }

  /** With uniform LF endings, or uniform CRLF endings and a newline after the package line, the offset is
      exact; so a rewritten file is the LF header, the licence, a newline, and the original bytes from the
      package line on. */
  lemma UniformExact(w: string, s: string, license: string)
    requires Scan(w, s).found
    requires UniformLF(s) || (UniformCRLF(s) && w != "" && LineAt(s, Scan(w, s).at) < s[Scan(w, s).at..])
    ensures var p := Scan(w, s).at;
            && Offset(w, s) == p
            && (Formatted(w, s, license).0 ==> Formatted(w, s, license).1 == Normalise(s[..p]) + license + "\n" + s[p..])
  {
    ScanBuffer(w, s);
    OffsetIff(w, s);
    if UniformLF(s) {
      LFDropsNothing(w, s);
    } else {
      ScanStops(w, s);
      CRLFLine(s, Scan(w, s).at);
    }
  }

  lemma CRLFLine(s: string, p: nat)
    requires UniformCRLF(s) && p <= |s| && LineAt(s, p) < s[p..] && LineAt(s, p) != ""
    ensures EndsCR(LineAt(s, p))
  {
    var e := LineEnd(s[p..]);
    assert s[p..][e] == s[p + e] && s[p..][e - 1] == s[p + e - 1];
  }

  // ---------------------------------------------------------------- running it twice

  /** A licence text fit for use: whole lines, none of them a package line, recognised once normalised. */
  predicate GoodLicense(w: string, license: string) {
    && Whole(license) && !Scan(w, license).found && HasLicense(Scan(w, license).buf)
  }

  predicate Whole(s: string) {
    s == "" || s[|s| - 1] == '\n'
  }

  /** Scanning whole lines without a package line, then more text, scans them one after the other. */
  lemma {:induction false} ScanJoin(w: string, a: string, b: string)
    requires Whole(a) && !Scan(w, a).found
    ensures Scan(w, a + b).buf == Scan(w, a).buf + Scan(w, b).buf
    decreases |a|
  {
    if a == "" {
      assert a + b == b;
    } else {
      LineOfJoin(a, b);
      ScanJoin(w, Tail(a), b);
      Regroup(DropCR(a[..LineEnd(a)]) + "\n", Scan(w, Tail(a)).buf, Scan(w, b).buf);
    }
  }

  lemma LineOfJoin(a: string, b: string)
    requires a != "" && Whole(a)
    ensures LineEnd(a + b) == LineEnd(a) < |a| && (a + b)[..LineEnd(a)] == a[..LineEnd(a)] && Tail(a + b) == Tail(a) + b && Whole(Tail(a))
  {
    var e := LineEnd(a + b);
    assert (a + b)[LineEnd(a)] == '\n';
    assert e == LineEnd(a);
  }

  /** The lines kept before the package line are whole and contain no package line, in LF form too. */
  lemma {:induction false} BufferPlain(w: string, s: string)
    ensures Whole(Scan(w, s).buf) && !Scan(w, Scan(w, s).buf).found
    decreases |s|
  {
    if s != "" && !Stops(w, s[..LineEnd(s)]) {
      BufferPlain(w, Tail(s));
      var raw := s[..LineEnd(s)];
      var line, rest := DropCR(raw), Scan(w, Tail(s)).buf;
      assert forall k :: 0 <= k < |line| ==> line[k] == raw[k];
      FirstOf(line, rest);
      assert !Stops(w, line);
    }
  }

  lemma FirstOf(line: string, rest: string)
    requires forall k :: 0 <= k < |line| ==> line[k] != '\n'
    ensures var t := line + "\n" + rest; LineEnd(t) == |line| && t[..LineEnd(t)] == line && Tail(t) == rest
  {
    var t := line + "\n" + rest;
    assert t[|line|] == '\n' && forall k :: 0 <= k < |line| ==> t[k] == line[k];
  }

  lemma ContainsAppend(a: string, b: string, c: string, word: string)
    requires Contains(b, word)
    ensures Contains(a + b + c, word)
  {
    var k :| 0 <= k <= |b| && WordAt(b, word, k);
    assert (a + b + c)[|a| + k..|a| + k + |word|] == b[k..k + |word|];
    assert WordAt(a + b + c, word, |a| + k);
  }

  lemma TwiceFound(w: string, buf: string, license: string, rest: string, s': string)
    requires GoodLicense(w, license) && Whole(buf) && !Scan(w, buf).found && s' == buf + (license + rest)
    ensures HasLicense(Scan(w, s').buf)
  {
    ScanJoin(w, buf, license + rest);
    ScanJoin(w, license, rest);
    Regroup(Scan(w, buf).buf, Scan(w, license).buf, Scan(w, rest).buf);
    ContainsAppend(Scan(w, buf).buf, Scan(w, license).buf, Scan(w, rest).buf, "Copyright");
    ContainsAppend(Scan(w, buf).buf, Scan(w, license).buf, Scan(w, rest).buf, "Apache License");
  }

  /** The rewritten text has the licence in its header. */
  lemma TwiceRewritten(w: string, buf: string, license: string, rest: string, out: string)
    requires GoodLicense(w, license) && Whole(buf) && !Scan(w, buf).found && out == buf + license + "\n" + rest
    ensures HasLicense(Scan(w, out).buf)
  {
    Regroup(buf + license, "\n", rest);
    Regroup(buf, license, "\n" + rest);
    TwiceFound(w, buf, license, "\n" + rest, out);
  }

  /** A second run changes nothing, whatever the file: any endings, with or without a package line. */
  lemma Idempotent(w: string, s: string, license: string)
    requires GoodLicense(w, license)
    ensures Formatted(w, Formatted(w, s, license).1, license) == (false, Formatted(w, s, license).1)
  {
    if Formatted(w, s, license).0 {
      BufferPlain(w, s);
      TwiceRewritten(w, Scan(w, s).buf, license, Rest(s, Offset(w, s)), Formatted(w, s, license).1);
    }
  }

  /** A file for which the offset is one byte short: CRLF endings, the package line unterminated. */
  lemma OffsetShort(w: string)
    requires |w| > 0 && w[0] != 'x' && forall k :: 0 <= k < |w| ==> w[k] != '\n' && w[k] != '\r'
    ensures var s := "x\r\n" + w; Scan(w, s).found && UniformCRLF(s) && Offset(w, s) == Scan(w, s).at - 1
  {
    var s := "x\r\n" + w;
    assert s[0] == 'x' && s[1] == '\r' && s[2] == '\n';
    assert LineEnd(s) == 2;
    assert s[..2] == "x\r" && DropCR("x\r") == "x" && !(w <= "x");
    assert Tail(s) == w && LineEnd(w) == |w| && w[..|w|] == w && DropCR(w) == w;
  }

  /** The same for a Go file. */
  lemma GoOffsetShort()
    ensures var s := "x\r\n" + PACKAGE; Scan(PACKAGE, s).found && UniformCRLF(s) && Offset(PACKAGE, s) == Scan(PACKAGE, s).at - 1
  {
    OffsetShort(PACKAGE);
  }
}
