/** String helpers shared by the back-end modules: the whitespace classes of
    Python and JavaScript, Python's str.strip(), str.join(), str.replace(),
    str(int) and the two os.path functions the back end uses. */
module Text {

  /** Python's str.isspace() for one character; the regular-expression class
      `\s` of a str pattern matches the same characters. */
  predicate IsPySpace(c: char) {
    var n := c as int;
    (9 <= n <= 13) || (28 <= n <= 32) || n == 0x85 || n == 0xA0 || n == 0x1680
    || (0x2000 <= n <= 0x200A) || n == 0x2028 || n == 0x2029 || n == 0x202F
    || n == 0x205F || n == 0x3000
  }

  /** The characters JavaScript's String.prototype.trim() removes. */
  predicate IsJsSpace(c: char) {
    var n := c as int;
    (9 <= n <= 13) || n == 32 || n == 0xA0 || n == 0x1680
    || (0x2000 <= n <= 0x200A) || n == 0x2028 || n == 0x2029 || n == 0x202F
    || n == 0x205F || n == 0x3000 || n == 0xFEFF
  }

  /** `not s.strip()` in Python: the string is empty or all whitespace. */
  predicate IsPyBlank(s: string) {
    forall i :: 0 <= i < |s| ==> IsPySpace(s[i])
  }

  /** `!s.trim()` in JavaScript. */
  predicate IsJsBlank(s: string) {
    forall i :: 0 <= i < |s| ==> IsJsSpace(s[i])
  }

  /** Python's s.lstrip(): drops the leading whitespace and nothing else. */
  function LStrip(s: string): (r: string)
    ensures |r| <= |s| && r == s[|s| - |r|..]
    ensures r != [] ==> !IsPySpace(r[0])
    ensures forall i :: 0 <= i < |s| - |r| ==> IsPySpace(s[i])
  {
    if s != [] && IsPySpace(s[0]) then
      assert forall i :: 1 <= i < |s| ==> s[i] == s[1..][i - 1];
      LStrip(s[1..])
    else s
  }

  /** Python's s.rstrip(): drops the trailing whitespace and nothing else. */
  function RStrip(s: string): (r: string)
    ensures |r| <= |s| && r == s[..|r|]
    ensures r != [] ==> !IsPySpace(r[|r| - 1])
    ensures forall i :: |r| <= i < |s| ==> IsPySpace(s[i])
  {
    if s != [] && IsPySpace(s[|s| - 1]) then
      assert forall i :: 0 <= i < |s| - 1 ==> s[i] == s[..|s| - 1][i];
      RStrip(s[..|s| - 1])
    else s
  }

  /** Python's s.strip(); it is empty exactly when s is blank. */
  function PyStrip(s: string): (r: string)
    ensures r == [] <==> IsPyBlank(s)
  {
    RStrip(LStrip(s))
  }

  /** str.strip() keeps a contiguous piece of its argument. */
  lemma PyStripSlice(s: string)
    ensures var lo := |s| - |LStrip(s)|;
      lo + |PyStrip(s)| <= |s| && PyStrip(s) == s[lo..lo + |PyStrip(s)|]
  {
    var l := LStrip(s);
    var r := RStrip(l);
    var lo := |s| - |l|;
    assert l == s[lo..];
    assert r == l[..|r|];
  }

  /** What str.strip() cuts off on either side is whitespace. */
  lemma PyStripCut(s: string)
    ensures var lo := |s| - |LStrip(s)|; var hi := lo + |PyStrip(s)|;
      && (forall i :: 0 <= i < lo ==> IsPySpace(s[i]))
      && (forall i :: hi <= i < |s| ==> IsPySpace(s[i]))
  {
    var l := LStrip(s);
    var r := RStrip(l);
    var lo := |s| - |l|;
    var hi := lo + |r|;
    forall i | hi <= i < |s| ensures IsPySpace(s[i]) {
      assert s[i] == l[i - lo];
    }
  }

  /** str.strip() leaves no whitespace at either end. */
  lemma PyStripEnds(s: string)
    ensures var r := PyStrip(s); r != [] ==> !IsPySpace(r[0]) && !IsPySpace(r[|r| - 1])
  {
    var l := LStrip(s);
    var r := RStrip(l);
    if r != [] {
      assert l[0] == r[0];
    }
  }

  /** Stripping twice is stripping once: the values load_csv produces are
      fixed points of str.strip(). */
  lemma PyStripIdempotent(s: string)
    ensures PyStrip(PyStrip(s)) == PyStrip(s)
  {
    var r := PyStrip(s);
    PyStripEnds(s);
    assert LStrip(r) == r;
    assert RStrip(r) == r;
  }

  /** No whitespace at either end. */
  predicate Unpadded(s: string) {
    s == [] || (!IsPySpace(s[0]) && !IsPySpace(s[|s| - 1]))
  }

  /** A stripped string is unpadded and stripping it again changes nothing. */
  lemma PyStripUnpadded(s: string)
    ensures Unpadded(PyStrip(s)) && PyStrip(PyStrip(s)) == PyStrip(s)
  {
    PyStripEnds(s);
    PyStripIdempotent(s);
  }

  /** Python's sep.join(parts). */
  function JoinWith(sep: string, parts: seq<string>): (r: string)
    ensures |parts| == 1 ==> r == parts[0]
  {
    if parts == [] then ""
    else if |parts| == 1 then parts[0]
    else parts[0] + sep + JoinWith(sep, parts[1..])
  }

  /** A word of str.split(): non-empty, with no whitespace. */
  predicate IsWord(w: string) {
    w != [] && forall i :: 0 <= i < |w| ==> !IsPySpace(w[i])
  }

  /** The longest prefix of s that holds no whitespace. */
  function WordPrefix(s: string): (w: string)
    ensures |w| <= |s| && w == s[..|w|]
    ensures forall i :: 0 <= i < |w| ==> !IsPySpace(w[i])
    ensures |w| < |s| ==> IsPySpace(s[|w|])
    ensures s != [] && !IsPySpace(s[0]) ==> w != []
  {
    if s == [] || IsPySpace(s[0]) then "" else [s[0]] + WordPrefix(s[1..])
  }

  /** Python's s.split() with no separator: the maximal runs of characters
      that are not whitespace, in order. */
  function Words(s: string): seq<string>
    decreases |s|
  {
    var t := LStrip(s);
    if t == [] then []
    else
      var w := WordPrefix(t);
      [w] + Words(t[|w|..])
  }

  /** Blank text, and only blank text, has no words. */
  lemma WordsBlank(s: string)
    ensures Words(s) == [] <==> IsPyBlank(s)
  {
    var t := LStrip(s);
    if t != [] {
      assert t[0] == s[|s| - |t|];
    }
  }

  /** Every word is non-empty and holds no whitespace. */
  lemma {:induction false} WordsShape(s: string)
    ensures forall k :: 0 <= k < |Words(s)| ==> IsWord(Words(s)[k])
    decreases |s|
  {
    var t := LStrip(s);
    if t != [] {
      var w := WordPrefix(t);
      var rest := t[|w|..];
      WordsShape(rest);
      var ws := Words(s);
      assert ws == [w] + Words(rest);
      forall k | 0 <= k < |ws| ensures IsWord(ws[k]) {
        if k > 0 {
          assert ws[k] == Words(rest)[k - 1];
        }
      }
    }
  }

  /** Blank text at the end does not survive rstrip. */
  lemma {:induction false} RStripBlankTail(a: string, b: string)
    requires IsPyBlank(b)
    ensures RStrip(a + b) == RStrip(a)
    decreases |b|
  {
    if b == [] {
      assert a + b == a;
    } else {
      var k := |b| - 1;
      assert (a + b)[..|a + b| - 1] == a + b[..k];
      RStripBlankTail(a, b[..k]);
    }
  }

  /** rstrip of a concatenation whose right part is not blank strips only
      that part. */
  lemma {:induction false} RStripAppend(a: string, b: string)
    requires !IsPyBlank(b)
    ensures RStrip(a + b) == a + RStrip(b)
    decreases |b|
  {
    var k := |b| - 1;
    if IsPySpace(b[k]) {
      var i :| 0 <= i < |b| && !IsPySpace(b[i]);
      assert b[..k][i] == b[i];
      assert (a + b)[..|a + b| - 1] == a + b[..k];
      RStripAppend(a, b[..k]);
    } else {
      assert (a + b)[|a + b| - 1] == b[k];
    }
  }

  /** lstrip drops a blank head in front of text that starts with no
      whitespace. */
  lemma {:induction false} LStripBlankHead(a: string, u: string)
    requires IsPyBlank(a) && (u == [] || !IsPySpace(u[0]))
    ensures LStrip(a + u) == u
    decreases |a|
  {
    if a == [] {
      assert a + u == u;
    } else {
      assert (a + u)[0] == a[0] && (a + u)[1..] == a[1..] + u;
      LStripBlankHead(a[1..], u);
    }
  }

  /** lstrip splits text into a blank head and the stripped rest. */
  lemma LStripSplit(y: string)
    ensures var z := LStrip(y);
      && y == y[..|y| - |z|] + z && IsPyBlank(y[..|y| - |z|])
  {
    var z := LStrip(y);
    var sp := y[..|y| - |z|];
    assert forall i :: 0 <= i < |sp| ==> sp[i] == y[i];
    assert forall i :: 0 <= i < |sp| ==> IsPySpace(y[i]);
    assert y == sp + z;
  }

  /** Python's s.replace(a, b) for one-character a and b. */
  function ReplaceChar(s: string, from: char, to: char): (r: string)
    ensures |r| == |s|
    ensures forall i :: 0 <= i < |s| ==> r[i] == if s[i] == from then to else s[i]
  {
    if s == [] then ""
    else [if s[0] == from then to else s[0]] + ReplaceChar(s[1..], from, to)
  }

  function DigitChar(d: nat): char
    requires d < 10
  {
    ('0' as int + d) as char
  }

  predicate IsDigit(c: char) {
    '0' <= c <= '9'
  }

  /** Python's str(n) for a non-negative int: its decimal digits, no sign,
      no leading zero. */
  function NatToString(n: nat): (r: string)
    ensures |r| >= 1
    ensures n >= 10 <==> |r| >= 2
    ensures forall i :: 0 <= i < |r| ==> IsDigit(r[i])
    ensures |r| >= 2 ==> r[0] != '0'
  {
    if n < 10 then [DigitChar(n)]
    else NatToString(n / 10) + [DigitChar(n % 10)]
  }

  /** Different numbers print differently, so ids that end in a number are
      told apart by that number. */
  lemma {:induction false} NatToStringInjective(a: nat, b: nat)
    requires NatToString(a) == NatToString(b)
    ensures a == b
  {
    if a >= 10 && b >= 10 {
      var sa, sb := NatToString(a), NatToString(b);
      assert sa[|sa| - 1] == DigitChar(a % 10) && sb[|sb| - 1] == DigitChar(b % 10);
      assert NatToString(a / 10) == sa[..|sa| - 1] == sb[..|sb| - 1] == NatToString(b / 10);
      NatToStringInjective(a / 10, b / 10);
    } else {
      assert NatToString(a)[0] == DigitChar(a) || NatToString(b)[0] == DigitChar(b);
    }
  }

  /** os.path.join(dir, name) on POSIX for one component: an absolute name
      replaces the directory, otherwise a '/' is put between the two unless
      the directory is empty or already ends in one. */
  function PathJoin(dir: string, name: string): (r: string)
    ensures name != [] && name[0] == '/' ==> r == name
    ensures (name == [] || name[0] != '/') && dir != [] && dir[|dir| - 1] != '/' ==> r == dir + "/" + name
  {
    if name != [] && name[0] == '/' then name
    else if dir == [] || dir[|dir| - 1] == '/' then dir + name
    else dir + "/" + name
  }

  /** os.path.basename(p) on POSIX: everything after the last '/'. */
  function Basename(p: string): string {
    if p == [] then ""
    else if p[|p| - 1] == '/' then ""
    else Basename(p[..|p| - 1]) + [p[|p| - 1]]
  }

  /** A base name contains no '/'. */
  lemma {:induction false} BasenameNoSlash(p: string)
    ensures '/' !in Basename(p)
  {
    if p != [] && p[|p| - 1] != '/' {
      BasenameNoSlash(p[..|p| - 1]);
    }
  }

  /** The base name is a suffix of the path, and it is the whole path or
      preceded by a '/'. */
  lemma {:induction false} BasenameSuffix(p: string)
    ensures var r := Basename(p);
      |r| <= |p| && r == p[|p| - |r|..] && (|r| < |p| ==> p[|p| - |r| - 1] == '/')
  {
    if p != [] && p[|p| - 1] != '/' {
      var init := p[..|p| - 1];
      BasenameSuffix(init);
      var n, m := |p|, |Basename(init)|;
      assert Basename(p) == Basename(init) + [p[n - 1]];
      assert p[n - m - 1..] == init[n - 1 - m..] + [p[n - 1]];
      if m + 1 < n {
        assert p[n - m - 2] == init[n - 1 - m - 1];
      }
    }
  }

  /** Appending a character other than '/' appends it to the base name. */
  lemma BasenameSnoc(p: string, c: char)
    requires c != '/'
    ensures Basename(p + [c]) == Basename(p) + [c]
  {
    assert (p + [c])[..|p|] == p;
  }

  /** A plain file name after an empty prefix or one ending in '/' is its
      own base name. */
  lemma {:induction false} BasenameAfterSlash(q: string, name: string)
    requires q == [] || q[|q| - 1] == '/'
    requires forall i :: 0 <= i < |name| ==> name[i] != '/'
    ensures Basename(q + name) == name
  {
    if name == [] {
      assert q + name == q;
    } else {
      var k := |name| - 1;
      var init := name[..k];
      BasenameAfterSlash(q, init);
      assert q + name == (q + init) + [name[k]];
      BasenameSnoc(q + init, name[k]);
      assert init + [name[k]] == name;
    }
  }

  /** The base name of a plain file name joined under a directory is that
      file name again. */
  lemma BasenameOfJoin(dir: string, name: string)
    requires '/' !in name
    ensures Basename(PathJoin(dir, name)) == name
  {
    forall i | 0 <= i < |name| ensures name[i] != '/' {
      assert name[i] in name;
    }
    if dir == [] || dir[|dir| - 1] == '/' {
      BasenameAfterSlash(dir, name);
    } else {
      assert dir + "/" + name == (dir + "/") + name;
      BasenameAfterSlash(dir + "/", name);
    }
  }
}
