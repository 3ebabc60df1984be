/** Which files the licence formatter rewrites and what it makes of them, stated on the bytes of the file. */
module LicenseHeader {
  import opened Collections
  import opened Licfmt

  // ---------------------------------------------------------------- words in the header

  /** A word that cannot reach over the end of a line. */
  predicate InLine(word: string) {
    word != "" && '\n' !in word && '\r' !in word
  }

  lemma ContainsEither(a: string, b: string, word: string)
    requires Contains(a, word) || Contains(b, word)
    ensures Contains(a + "\n" + b, word)
  {
    var t := a + "\n" + b;
    if Contains(a, word) {
      var k :| 0 <= k <= |a| && WordAt(a, word, k);
      assert t[k..k + |word|] == a[k..k + |word|];
      assert WordAt(t, word, k);
    } else {
      var k :| 0 <= k <= |b| && WordAt(b, word, k);
      assert t[|a| + 1 + k..|a| + 1 + k + |word|] == b[k..k + |word|];
      assert WordAt(t, word, |a| + 1 + k);
    }
  }

  /** A word found in two lines is found in one of them. */
  lemma WordInOne(a: string, b: string, word: string, k: nat)
    requires InLine(word) && WordAt(a + "\n" + b, word, k)
    ensures if k + |word| <= |a| then WordAt(a, word, k) else k > |a| && WordAt(b, word, k - |a| - 1)
  {
    var t := a + "\n" + b;
    assert forall j :: 0 <= j < |word| ==> t[k + j] == word[j];
    if k + |word| <= |a| {
      assert a[k..k + |word|] == t[k..k + |word|];
    } else {
      assert t[|a|] == '\n';
      assert k > |a|;
      assert b[k - |a| - 1..k - |a| - 1 + |word|] == t[k..k + |word|];
    }
  }

  lemma ContainsLines(a: string, b: string, word: string)
    requires InLine(word)
    ensures Contains(a + "\n" + b, word) <==> Contains(a, word) || Contains(b, word)
  {
    var t := a + "\n" + b;
    if Contains(a, word) || Contains(b, word) {
      ContainsEither(a, b, word);
    } else if Contains(t, word) {
      var k :| 0 <= k <= |t| && WordAt(t, word, k);
      WordInOne(a, b, word, k);
      assert false;
    }
  }

  lemma ContainsDropped(raw: string, word: string)
    requires InLine(word)
    ensures Contains(DropCR(raw), word) <==> Contains(raw, word)
  {
    var a := DropCR(raw);
    if Contains(a, word) {
      var k :| 0 <= k <= |a| && WordAt(a, word, k);
      assert raw[k..k + |word|] == a[k..k + |word|];
      assert WordAt(raw, word, k);
    }
    if Contains(raw, word) {
      var k :| 0 <= k <= |raw| && WordAt(raw, word, k);
      assert raw[k + |word| - 1] == word[|word| - 1];
      assert a[k..k + |word|] == raw[k..k + |word|];
      assert WordAt(a, word, k);
    }
  }

  /** One line of the header, and what follows it. */
  lemma HeaderLine(raw: string, buf: string, rest: string, word: string)
    requires InLine(word) && (Contains(buf, word) <==> Contains(rest, word))
    ensures Contains(DropCR(raw) + "\n" + buf, word) <==> Contains(raw + "\n" + rest, word)
  {
    ContainsDropped(raw, word);
    ContainsLines(DropCR(raw), buf, word);
    ContainsLines(raw, rest, word);
  }

  /** A last line without a newline. */
  lemma LastLine(raw: string, word: string)
    requires InLine(word)
    ensures Contains(DropCR(raw) + "\n" + "", word) <==> Contains(raw, word)
  {
    ContainsDropped(raw, word);
    ContainsLines(DropCR(raw), "", word);
    NothingInEmpty(word);
  }

  /** The header the formatter looks at contains a word exactly when the bytes before the package line do. */
  lemma {:induction false} HeaderContains(w: string, s: string, word: string)
    requires InLine(word)
    ensures Contains(Scan(w, s).buf, word) <==> Contains(s[..Scan(w, s).at], word)
    decreases |s|
  {
    if s == "" {
    } else if Stops(w, s[..LineEnd(s)]) {
      assert s[..0] == "";
    } else {
      var raw, r := s[..LineEnd(s)], Scan(w, Tail(s));
      assert Scan(w, s).buf == DropCR(raw) + "\n" + r.buf && Scan(w, s).at == |s| - |Tail(s)| + r.at;
      if LineEnd(s) < |s| {
        HeaderContains(w, Tail(s), word);
        HeaderLine(raw, r.buf, Tail(s)[..r.at], word);
        CutTail(s, r.at);
      } else {
        LastLine(raw, word);
        assert s[..|s|] == raw;
      }
    }
  }

  lemma NothingInEmpty(word: string)
    requires word != ""
    ensures !Contains("", word)
  {
  }

  // ---------------------------------------------------------------- where the header ends

  /** A line that starts with the word begins at p. */
  predicate Begins(w: string, s: string, p: nat) {
    p <= |s| && (p == 0 || s[p - 1] == '\n') && w <= s[p..]
  }

  /** The header ends at p: the first line that starts with the word begins there, or there is none and p is the
      size of the file. */
  ghost predicate HeaderEnds(w: string, s: string, p: nat) {
    p <= |s| && (p < |s| ==> Begins(w, s, p)) && forall q: nat :: q < p ==> !Begins(w, s, q)
  }

  /** A line starts with the word, its CR dropped or not, exactly when the file does from there on. */
  lemma StopsIff(w: string, s: string, p: nat)
    requires InLine(w) && p <= |s|
    ensures Stops(w, LineAt(s, p)) <==> w <= s[p..]
  {
    var t, line := s[p..], LineAt(s, p);
    var e := LineEnd(t);
    assert line == t[..e];
    forall k | 0 <= k < |w| ensures w[k] != '\n' && w[k] != '\r' { assert w[k] in w; }
    if w <= t {
      assert forall k :: 0 <= k < |w| ==> t[k] == w[k];
      assert |w| <= e;
      assert EndsCR(line) ==> |w| < e;
      assert w <= DropCR(line);
    }
  }

  lemma BeginsIn(w: string, s: string, e: nat, t: string, q: nat)
    requires e < |s| && s[e] == '\n' && t == s[e + 1..]
    ensures Begins(w, t, q) <==> Begins(w, s, e + 1 + q)
  {
    if q <= |t| {
      assert t[q..] == s[e + 1 + q..];
      assert q > 0 ==> t[q - 1] == s[e + q];
    }
  }

  /** The end of the header as seen from the second line. */
  lemma TailEnds(w: string, s: string, p: nat, e: nat, t: string)
    requires HeaderEnds(w, s, p) && p > 0 && e == LineEnd(s) < |s| && t == s[e + 1..]
    ensures p >= e + 1 && HeaderEnds(w, t, p - e - 1)
  {
    assert p < |s| ==> s[p - 1] == '\n';
    assert p - 1 >= e;
    BeginsIn(w, s, e, t, p - e - 1);
    forall q: nat | q < p - e - 1 ensures !Begins(w, t, q) { BeginsIn(w, s, e, t, q); }
  }

  /** The scan stops at the end of the header. */
  lemma {:induction false} HeaderEndIs(w: string, s: string, p: nat)
    requires InLine(w) && HeaderEnds(w, s, p)
    ensures Scan(w, s).at == p && (Scan(w, s).found <==> p < |s|)
    decreases |s|
  {
    if s != "" {
      var e := LineEnd(s);
      StopsIff(w, s, 0);
      FirstLine(s);
      assert s[0..] == s;
      assert Begins(w, s, 0) <==> w <= s;
      if p > 0 {
        if e < |s| {
          TailEnds(w, s, p, e, Tail(s));
          HeaderEndIs(w, Tail(s), p - e - 1);
        } else {
          assert p == |s|;
        }
      }
    }
  }

  // ---------------------------------------------------------------- what is rewritten, and into what

  lemma WordsInLine()
    ensures InLine("Copyright") && InLine("Apache License") && InLine("DO NOT EDIT") && InLine("generated by")
  {
    assert |"Copyright"| == 9 && |"Apache License"| == 14 && |"DO NOT EDIT"| == 11 && |"generated by"| == 12;
  }

  /** Which files are rewritten: those whose bytes before the package line do not hold both licence words and
      hold neither of the words of a generated file. Any other file stays as it is. */
  lemma RewrittenIff(w: string, s: string, license: string, p: nat)
    requires InLine(w) && HeaderEnds(w, s, p)
    ensures var h := s[..p];
            Formatted(w, s, license).0 <==>
            && (Contains(h, "Copyright") ==> !Contains(h, "Apache License"))
            && !Contains(h, "DO NOT EDIT") && !Contains(h, "generated by")
    ensures !Formatted(w, s, license).0 ==> Formatted(w, s, license).1 == s
  {
    HeaderEndIs(w, s, p);
    WordsInLine();
    HeaderContains(w, s, "Copyright");
    HeaderContains(w, s, "Apache License");
    HeaderContains(w, s, "DO NOT EDIT");
    HeaderContains(w, s, "generated by");
  }

  /** What a file with a package line is rewritten into: its header in LF form, the licence, a newline, and the
      bytes from the package line on, after one more newline if the header held CR LF and the package line does
      not end in CR. */
  lemma RewrittenInto(w: string, s: string, license: string, p: nat)
    requires InLine(w) && HeaderEnds(w, s, p) && p < |s| && Formatted(w, s, license).0
    ensures Formatted(w, s, license).1 ==
            Normalise(s[..p]) + license + "\n" + (if Normalise(s[..p]) == s[..p] || EndsCR(LineAt(s, p)) then "" else "\n") + s[p..]
  {
    HeaderEndIs(w, s, p);
    var r := Scan(w, s);
    ScanPosition(w, s);
    ScanBuffer(w, s);
    ScanStops(w, s);
    OffsetIff(w, s);
    NormaliseShorter(s[..p]);
    Appended(r.buf + license + "\n", s, p, Offset(w, s));
  }

  /** The text with its last line ended. */
  function Closed(s: string): string {
    if s == "" || s[|s| - 1] == '\n' then s else s + "\n"
  }

  /** Without a package line the header is the whole file, its last line ended. */
  lemma {:induction false} WholeHeader(w: string, s: string)
    requires !Scan(w, s).found
    ensures Scan(w, s).buf == Normalise(Closed(s)) && |Scan(w, s).buf| + Scan(w, s).dropped == |Closed(s)|
    decreases |s|
  {
    if s != "" {
      WholeHeader(w, Tail(s));
      ClosedTail(s);
      NormaliseLine(s[..LineEnd(s)], Closed(Tail(s)));
    }
  }

  lemma ClosedTail(s: string)
    requires s != ""
    ensures Closed(s) == s[..LineEnd(s)] + "\n" + Closed(Tail(s)) && |Closed(s)| == LineEnd(s) + 1 + |Closed(Tail(s))|
  {
    var e, t := LineEnd(s), Tail(s);
    if e < |s| {
      assert s == s[..e] + "\n" + t;
      assert t != "" ==> t[|t| - 1] == s[|s| - 1];
      if t != "" && t[|t| - 1] != '\n' { Regroup(s[..e] + "\n", t, "\n"); }
    } else {
      assert s[..e] == s && s[|s| - 1] != '\n';
    }
  }

  /** What a file without a package line is rewritten into: all of it in LF form, its last line ended, the licence
      and a newline, and one more newline if it was ended and held CR LF. */
  lemma RewrittenWhole(w: string, s: string, license: string)
    requires InLine(w) && HeaderEnds(w, s, |s|) && Formatted(w, s, license).0
    ensures Formatted(w, s, license).1 ==
            Normalise(Closed(s)) + license + "\n" + (if Closed(s) == s && Normalise(s) != s then "\n" else "")
  {
    HeaderEndIs(w, s, |s|);
    WholeHeader(w, s);
    NormaliseShorter(Closed(s));
    RestOfWhole(s, Scan(w, s).buf, Scan(w, s).dropped);
  }

  lemma RestOfWhole(s: string, buf: string, dropped: nat)
    requires |buf| + dropped == |Closed(s)|
    ensures Rest(s, OffsetOf(buf, dropped)) == if Closed(s) == s && dropped > 0 then "\n" else ""
  {
    var o := OffsetOf(buf, dropped);
    if Closed(s) == s && dropped > 0 {
      assert s[|s| - 1] == '\n';
      assert o == |s| - 1 && s[o..] == "\n";
    } else if o == |s| {
      assert s[o..] == "";
    }
  }

  lemma Appended(a: string, s: string, p: nat, o: nat)
    requires p <= |s| && (o == p || (o + 1 == p && s[o] == '\n'))
    ensures a + s[o..] == a + (if o == p then "" else "\n") + s[p..]
  {
    if o < p {
      assert s[o..] == "\n" + s[p..];
      Regroup(a, "\n", s[p..]);
    } else {
      assert a + "" == a;
    }
  }

  lemma {:induction false} NormaliseShorter(s: string)
    ensures |Normalise(s)| <= |s| && (|Normalise(s)| == |s| ==> Normalise(s) == s)
  {
    if s != "" { NormaliseShorter(s[1..]); }
  }
}
