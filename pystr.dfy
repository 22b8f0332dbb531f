/**
  The Python 3 `str` operations the backend relies on, restricted to ASCII
  text: whitespace, `strip()`, `split(sep)`, `split()`, `sep.join(...)`,
  substring tests, `upper()`/`lower()`, `isdigit()`, `replace(c, '')` and
  `str(n)` for natural numbers.
*/
module PyStr {

  import opened Wrappers

  /** `c.isspace()` for an ASCII character; Python also counts the four
      information separators U+001C..U+001F as whitespace. */
  predicate IsSpace(c: char) {
    c == ' ' || c == '\t' || c == '\n' || c == '\r' || c == '\U{000B}' || c == '\U{000C}'
    || ('\U{001C}' <= c <= '\U{001F}')
  }

  /** Every character is whitespace. */
  predicate AllSpace(s: string) {
    forall i :: 0 <= i < |s| ==> IsSpace(s[i])
  }

  /** No character is whitespace. */
  predicate NoSpace(s: string) {
    forall i :: 0 <= i < |s| ==> !IsSpace(s[i])
  }

  /** `s.startswith(p)` */
  predicate StartsWith(s: string, p: string) {
    |p| <= |s| && s[..|p|] == p
  }

  /** `t in s` for two strings: t occurs in s as a contiguous block. */
  predicate Contains(s: string, t: string)
    decreases |s|
  {
    StartsWith(s, t) || (s != [] && Contains(s[1..], t))
  }

  /** `t in s` exactly when t starts at some position of s. */
  lemma {:induction false} ContainsAt(s: string, t: string)
    ensures Contains(s, t) <==> exists i :: 0 <= i <= |s| && StartsWith(s[i..], t)
    decreases |s|
  {
    assert s[0..] == s;
    if s != [] {
      ContainsAt(s[1..], t);
      if Contains(s[1..], t) {
        var i :| 0 <= i <= |s[1..]| && StartsWith(s[1..][i..], t);
        assert s[1..][i..] == s[i + 1..];
      }
      if i :| 0 < i <= |s| && StartsWith(s[i..], t) {
        assert s[1..][i - 1..] == s[i..];
      }
    }
  }

  /** t does not occur in s when one of its characters is missing from s. */
  lemma {:induction false} MissingChar(s: string, t: string, c: char)
    requires c in t && c !in s
    ensures !Contains(s, t)
  {
    ContainsAt(s, t);
    forall i | 0 <= i <= |s|
      ensures !StartsWith(s[i..], t)
    {
      var j :| 0 <= j < |t| && t[j] == c;
      if |t| <= |s| - i {
        assert s[i..][..|t|][j] == s[i + j];
      }
    }
  }

  /** A one-character substring test is membership. */
  lemma {:induction false} ContainsChar(s: string, c: char)
    ensures Contains(s, [c]) <==> c in s
  {
    ContainsAt(s, [c]);
    if c in s {
      var i :| 0 <= i < |s| && s[i] == c;
      assert s[i..][..1] == [c];
      assert StartsWith(s[i..], [c]);
    }
    if Contains(s, [c]) {
      var i :| 0 <= i <= |s| && StartsWith(s[i..], [c]);
      assert s[i..][0] == s[i];
    }
  }

  /** `s.find(sep)`, with `None` for -1: the first position where sep occurs. */
  function IndexOf(s: string, sep: string): (r: Option<nat>)
    decreases |s|
    ensures r.Some? ==> r.value <= |s| && StartsWith(s[r.value..], sep)
    ensures r.Some? ==> forall j :: 0 <= j < r.value ==> !StartsWith(s[j..], sep)
    ensures r.None? ==> forall j :: 0 <= j <= |s| ==> !StartsWith(s[j..], sep)
  {
    if StartsWith(s, sep) then Some(0)
    else if s == [] then None
    else
      var rest := IndexOf(s[1..], sep);
      assert forall j :: 1 <= j <= |s| ==> s[1..][j - 1..] == s[j..];
      match rest
      case None => None
      case Some(i) => Some(i + 1)
  }

  /** `s.split(sep)` for a non-empty separator: the pieces between the
      non-overlapping occurrences of sep, found left to right. */
  function Split(s: string, sep: string): (parts: seq<string>)
    requires sep != []
    decreases |s|
    ensures |parts| >= 1
  {
    match IndexOf(s, sep)
    case None => [s]
    case Some(i) => [s[..i]] + Split(s[i + |sep|..], sep)
  }

  /** `sep.join(parts)` */
  function Join(parts: seq<string>, sep: string): string {
    if parts == [] then ""
    else if |parts| == 1 then parts[0]
    else parts[0] + sep + Join(parts[1..], sep)
  }

  /** The first occurrence of c is just after the prefix that lacks it. */
  lemma {:induction false} IndexOfChar(p: string, c: char, rest: string)
    requires c !in p
    ensures IndexOf(p + [c] + rest, [c]) == Some(|p|)
  {
    var s := p + [c] + rest;
    assert s[|p|..][..1] == [c];
    forall j | 0 <= j < |p|
      ensures !StartsWith(s[j..], [c])
    {
      assert s[j..][0] == p[j];
    }
  }

  /** A character that does not occur is not found. */
  lemma {:induction false} IndexOfAbsent(p: string, c: char)
    requires c !in p
    ensures IndexOf(p, [c]).None?
  {
    forall j | 0 <= j <= |p|
      ensures !StartsWith(p[j..], [c])
    {
      if j < |p| {
        assert p[j..][0] == p[j];
      }
    }
  }

  /** The two sides of a separator are recovered by slicing. */
  lemma {:induction false} AroundSeparator(a: string, sep: string, b: string)
    ensures (a + sep + b)[..|a|] == a && (a + sep + b)[|a| + |sep|..] == b
  {
  }

  /** Splitting on a one-character separator that no piece contains gives
      back the pieces that were joined. */
  lemma {:induction false} JoinSplitChar(parts: seq<string>, c: char)
    requires parts != []
    requires forall k :: 0 <= k < |parts| ==> c !in parts[k]
    ensures Split(Join(parts, [c]), [c]) == parts
    decreases |parts|
  {
    if |parts| == 1 {
      IndexOfAbsent(parts[0], c);
    } else {
      var tail := Join(parts[1..], [c]);
      var s := parts[0] + [c] + tail;
      assert Join(parts, [c]) == s;
      IndexOfChar(parts[0], c, tail);
      SplitFound(s, [c]);
      AroundSeparator(parts[0], [c], tail);
      JoinSplitChar(parts[1..], c);
      assert parts == [parts[0]] + parts[1..];
    }
  }

  /** Joining the pieces of a split with the same separator gives the text back. */
  lemma {:induction false} SplitJoin(s: string, sep: string)
    requires sep != []
    ensures Join(Split(s, sep), sep) == s
    decreases |s|
  {
    if IndexOf(s, sep).Some? {
      var i := IndexOf(s, sep).value;
      var rest := s[i + |sep|..];
      SliceAround(s, sep, i);
      SplitFound(s, sep);
      SplitJoin(rest, sep);
      JoinCons(s[..i], Split(rest, sep), sep);
    }
  }

  /** A text is the part before a separator occurrence, the separator and the part after. */
  lemma {:induction false} SliceAround(s: string, sep: string, i: nat)
    requires i <= |s| && StartsWith(s[i..], sep)
    ensures s == s[..i] + sep + s[i + |sep|..]
  {
    assert s[i..i + |sep|] == sep;
    assert s == s[..i] + s[i..i + |sep|] + s[i + |sep|..];
  }

  /** Helper: one step of `split(sep)` when the separator occurs. */
  lemma {:induction false} SplitFound(s: string, sep: string)
    requires sep != [] && IndexOf(s, sep).Some?
    ensures var i := IndexOf(s, sep).value;
      Split(s, sep) == [s[..i]] + Split(s[i + |sep|..], sep)
  {
  }

  /** Helper: one step of `sep.join`. */
  lemma {:induction false} JoinCons(head: string, tail: seq<string>, sep: string)
    requires tail != []
    ensures Join([head] + tail, sep) == head + sep + Join(tail, sep)
  {
    assert ([head] + tail)[1..] == tail;
  }

  /** No piece of a split holds the separator. */
  lemma {:induction false} SplitPieces(s: string, sep: string)
    requires sep != []
    ensures forall k :: 0 <= k < |Split(s, sep)| ==> !Contains(Split(s, sep)[k], sep)
    decreases |s|
  {
    match IndexOf(s, sep)
    case None =>
      ContainsAt(s, sep);
    case Some(i) =>
      var rest := s[i + |sep|..];
      SplitPieces(rest, sep);
      var head := s[..i];
      forall j | 0 <= j <= |head|
        ensures !StartsWith(head[j..], sep)
      {
        if j + |sep| <= |head| {
          assert head[j..][..|sep|] == s[j..][..|sep|];
        }
      }
      ContainsAt(head, sep);
      var parts := Split(s, sep);
      assert parts == [head] + Split(rest, sep);
      forall k | 0 <= k < |parts|
        ensures !Contains(parts[k], sep)
      {
        if k > 0 {
          assert parts[k] == Split(rest, sep)[k - 1];
        }
      }
  }

  /** `s.lstrip()` */
  function LStrip(s: string): (r: string)
    decreases |s|
    ensures |r| <= |s| && r == s[|s| - |r|..]
    ensures AllSpace(s[..|s| - |r|])
    ensures r == [] || !IsSpace(r[0])
  {
    if s != [] && IsSpace(s[0]) then
      var r := LStrip(s[1..]);
      assert s[1..][..|s| - 1 - |r|] == s[1..|s| - |r|];
      r
    else s
  }

  /** `s.rstrip()` */
  function RStrip(s: string): (r: string)
    decreases |s|
    ensures |r| <= |s| && r == s[..|r|]
    ensures AllSpace(s[|r|..])
    ensures r == [] || !IsSpace(r[|r| - 1])
  {
    if s != [] && IsSpace(s[|s| - 1]) then
      var r := RStrip(s[..|s| - 1]);
      assert s[..|s| - 1][|r|..] + [s[|s| - 1]] == s[|r|..];
      r
    else s
  }

  /** `s.strip()`: s without its leading and trailing whitespace. */
  function Strip(s: string): (r: string)
    ensures r == [] <==> AllSpace(s)
    ensures r != [] ==> !IsSpace(r[0]) && !IsSpace(r[|r| - 1])
  {
    var t := LStrip(s);
    var r := RStrip(t);
    assert r == [] ==> AllSpace(s) by {
      if r == [] {
        assert s == s[..|s| - |t|] + t;
      }
    }
    assert r != [] ==> r[0] == t[0];
    r
  }

  /** What `strip()` removes is whitespace: s is the stripped text with a
      run of whitespace on either side. */
  lemma {:induction false} StripInfix(s: string)
    ensures var lead := |s| - |LStrip(s)|; var r := Strip(s);
      && lead + |r| <= |s|
      && (forall i :: 0 <= i < |r| ==> r[i] == s[lead + i])
      && (forall i :: 0 <= i < lead ==> IsSpace(s[i]))
      && (forall i :: lead + |r| <= i < |s| ==> IsSpace(s[i]))
  {
    var t := LStrip(s);
    var r := RStrip(t);
    InfixParts(s, t, r);
    StripUnfold(s);
  }

  /** `strip()` is `lstrip()` followed by `rstrip()`. */
  lemma {:induction false} StripUnfold(s: string)
    ensures Strip(s) == RStrip(LStrip(s))
  {
  }

  /** Helper: the positions of the stripped block inside the original text. */
  lemma {:induction false} InfixParts(s: string, t: string, r: string)
    requires |t| <= |s| && t == s[|s| - |t|..] && AllSpace(s[..|s| - |t|])
    requires |r| <= |t| && r == t[..|r|] && AllSpace(t[|r|..])
    ensures var lead := |s| - |t|;
      && lead + |r| <= |s|
      && (forall i :: 0 <= i < |r| ==> r[i] == s[lead + i])
      && (forall i :: 0 <= i < lead ==> IsSpace(s[i]))
      && (forall i :: lead + |r| <= i < |s| ==> IsSpace(s[i]))
  {
    var lead := |s| - |t|;
    forall i | 0 <= i < lead
      ensures IsSpace(s[i])
    {
      assert s[..lead][i] == s[i];
    }
    forall i | lead + |r| <= i < |s|
      ensures IsSpace(s[i])
    {
      assert t[|r|..][i - lead - |r|] == s[i];
    }
  }

  /** Stripping twice changes nothing. */
  lemma {:induction false} StripIdempotent(s: string)
    ensures Strip(Strip(s)) == Strip(s)
  {
    StripUnchanged(Strip(s));
  }

  /** Text that starts and ends with a non-space character is its own strip. */
  lemma {:induction false} StripUnchanged(c: string)
    requires c == [] || (!IsSpace(c[0]) && !IsSpace(c[|c| - 1]))
    ensures Strip(c) == c
  {
    assert LStrip(c) == c;
    assert RStrip(c) == c;
  }

  /** Length of the longest prefix of s without whitespace. */
  function WordLen(s: string): (n: nat)
    ensures n <= |s|
    ensures forall i :: 0 <= i < n ==> !IsSpace(s[i])
    ensures n < |s| ==> IsSpace(s[n])
  {
    if s == [] || IsSpace(s[0]) then 0 else 1 + WordLen(s[1..])
  }

  /** `s.split()`: the maximal runs of non-whitespace characters, in order. */
  function Words(s: string): (words: seq<string>)
    decreases |s|
    ensures forall k :: 0 <= k < |words| ==> words[k] != [] && NoSpace(words[k])
  {
    var t := LStrip(s);
    if t == [] then []
    else
      var n := WordLen(t);
      var w := t[..n];
      assert w != [] && NoSpace(w);
      WordCons(w, Words(t[n..]));
      [w] + Words(t[n..])
  }

  /** Helper: a word prepended to words keeps every token non-empty and space-free. */
  lemma {:induction false} WordCons(w: string, rest: seq<string>)
    requires w != [] && NoSpace(w)
    requires forall k :: 0 <= k < |rest| ==> rest[k] != [] && NoSpace(rest[k])
    ensures forall k :: 0 <= k < |[w] + rest| ==> ([w] + rest)[k] != [] && NoSpace(([w] + rest)[k])
  {
    assert forall k :: 1 <= k < |[w] + rest| ==> ([w] + rest)[k] == rest[k - 1];
  }

  /** The non-whitespace characters of s, in order. */
  function Unspaced(s: string): string {
    if s == [] then [] else (if IsSpace(s[0]) then [] else [s[0]]) + Unspaced(s[1..])
  }

  /** The tokens concatenated. */
  function Concat(words: seq<string>): string {
    if words == [] then [] else words[0] + Concat(words[1..])
  }

  /** Removing whitespace distributes over concatenation. */
  lemma {:induction false} UnspacedAppend(a: string, b: string)
    ensures Unspaced(a + b) == Unspaced(a) + Unspaced(b)
    decreases |a|
  {
    if a == [] {
      assert a + b == b;
    } else {
      assert (a + b)[0] == a[0];
      assert (a + b)[1..] == a[1..] + b;
      UnspacedAppend(a[1..], b);
    }
  }

  /** Helper: removing whitespace from all-whitespace or space-free text. */
  lemma {:induction false} UnspacedAll(s: string)
    ensures AllSpace(s) ==> Unspaced(s) == []
    ensures NoSpace(s) ==> Unspaced(s) == s
    decreases |s|
  {
    if s != [] {
      UnspacedAll(s[1..]);
    }
  }

  /** Helper: one step of Concat. */
  lemma {:induction false} ConcatCons(w: string, rest: seq<string>)
    ensures Concat([w] + rest) == w + Concat(rest)
  {
    assert ([w] + rest)[1..] == rest;
  }

  /** `split()` loses exactly the whitespace: the words, put back together,
      are the text with its whitespace removed. */
  lemma {:induction false} WordsUnspaced(s: string)
    ensures Concat(Words(s)) == Unspaced(s)
    decreases |s|
  {
    var t := LStrip(s);
    var lead := |s| - |t|;
    UnspacedAt(s, lead);
    UnspacedAll(s[..lead]);
    if t != [] {
      var n := WordLen(t);
      UnspacedAt(t, n);
      UnspacedAll(t[..n]);
      WordsUnspaced(t[n..]);
      ConcatCons(t[..n], Words(t[n..]));
    } else {
      assert Unspaced(t) == [];
    }
  }

  /** Helper: removing whitespace around a cut point. */
  lemma {:induction false} UnspacedAt(s: string, k: nat)
    requires k <= |s|
    ensures Unspaced(s) == Unspaced(s[..k]) + Unspaced(s[k..])
  {
    assert s == s[..k] + s[k..];
    UnspacedAppend(s[..k], s[k..]);
  }

  /** A non-empty text without whitespace is a single word. */
  lemma {:induction false} NoSpaceOneWord(s: string)
    requires s != [] && NoSpace(s)
    ensures Words(s) == [s]
  {
    assert LStrip(s) == s;
    var n := WordLen(s);
    assert n == |s|;
    assert s[..n] == s;
    assert s[n..] == [];
    assert LStrip([]) == [];
    assert Words(s[n..]) == [];
  }

  /** Leading whitespace does not change what `lstrip()` gives. */
  lemma {:induction false} LStripLeading(ws: string, t: string)
    requires AllSpace(ws)
    ensures LStrip(ws + t) == LStrip(t)
    decreases |ws|
  {
    if ws == [] {
      assert ws + t == t;
    } else {
      var s := ws + t;
      assert s[0] == ws[0];
      assert s[1..] == ws[1..] + t;
      LStripLeading(ws[1..], t);
    }
  }

  /** All-whitespace text has no words. */
  lemma {:induction false} WordsAllSpace(s: string)
    requires AllSpace(s)
    ensures Words(s) == []
  {
    LStripAllSpace(s);
  }

  /** Leading whitespace does not change the words. */
  lemma {:induction false} WordsLeading(ws: string, t: string)
    requires AllSpace(ws)
    ensures Words(ws + t) == Words(t)
  {
    LStripLeading(ws, t);
  }

  /** A word at the start, ended by whitespace or by the end of the text, is
      the first token. */
  lemma {:induction false} WordsFirst(w: string, rest: string)
    requires w != [] && NoSpace(w)
    requires rest == [] || IsSpace(rest[0])
    ensures Words(w + rest) == [w] + Words(rest)
  {
    var s := w + rest;
    assert s[0] == w[0];
    assert LStrip(s) == s;
    var n := WordLen(s);
    assert forall i :: 0 <= i < |w| ==> s[i] == w[i];
    assert |rest| > 0 ==> s[|w|] == rest[0];
    assert n == |w|;
    assert s[..n] == w;
    assert s[n..] == rest;
  }

  /** The text is its leading whitespace followed by what `lstrip()` gives. */
  lemma {:induction false} LStripSplit(a: string)
    ensures a == a[..|a| - |LStrip(a)|] + LStrip(a)
  {
    var t := LStrip(a);
    assert t == a[|a| - |t|..];
  }

  /** `lstrip()` leaves nothing exactly when the text is all whitespace. */
  lemma {:induction false} LStripAllSpace(a: string)
    ensures LStrip(a) == [] <==> AllSpace(a)
  {
    var r := LStrip(a);
    LStripSplit(a);
    AllSpaceAppend(a[..|a| - |r|], r);
  }

  /** A concatenation is all whitespace exactly when both parts are. */
  lemma {:induction false} AllSpaceAppend(x: string, y: string)
    ensures AllSpace(x + y) <==> AllSpace(x) && AllSpace(y)
  {
    assert forall i :: 0 <= i < |x| ==> (x + y)[i] == x[i];
    assert forall i :: 0 <= i < |y| ==> (x + y)[|x| + i] == y[i];
  }

  /** After leading whitespace, a word ended by whitespace or by the end of
      the text is the first token. */
  lemma {:induction false} WordsAfterSpace(ws: string, w: string, x: string)
    requires AllSpace(ws) && w != [] && NoSpace(w) && (x == [] || IsSpace(x[0]))
    ensures Words(ws + (w + x)) == [w] + Words(x)
  {
    WordsLeading(ws, w + x);
    WordsFirst(w, x);
  }

  /** Helper: r + [c] + b starts with whitespace when c is whitespace and r is empty or starts with it. */
  lemma {:induction false} SpaceAhead(r: string, c: char, b: string)
    requires IsSpace(c) && (r == [] || IsSpace(r[0]))
    ensures IsSpace((r + [c] + b)[0])
  {
  }

  /** One step of WordsSpace: a first word after leading whitespace, with
      the words of the remainder already split at c. */
  lemma {:induction false} WordsSpaceStep(ws: string, w: string, r: string, c: char, b: string)
    requires AllSpace(ws) && w != [] && NoSpace(w) && (r == [] || IsSpace(r[0]))
    requires IsSpace(c)
    requires Words(r + [c] + b) == Words(r) + Words(b)
    ensures Words(ws + (w + r) + [c] + b) == Words(ws + (w + r)) + Words(b)
  {
    Regroup(ws, w, r, [c], b);
    SpaceAhead(r, c, b);
    WordsAfterSpace(ws, w, r + [c] + b);
    WordsAfterSpace(ws, w, r);
    AppendAssoc([w], Words(r), Words(b));
  }

  /** A text that starts with a non-space character is its first word
      followed by a rest that is empty or starts with whitespace. */
  lemma {:induction false} WordSplit(t: string) returns (w: string, r: string)
    requires t != [] && !IsSpace(t[0])
    ensures t == w + r
    ensures w != [] && NoSpace(w) && (r == [] || IsSpace(r[0]))
  {
    var n := WordLen(t);
    w, r := t[..n], t[n..];
    assert t == w + r;
    assert n < |t| ==> r[0] == t[n];
  }

  /** Text that is not all whitespace is leading whitespace, a first word,
      and a rest that is empty or starts with whitespace. */
  lemma {:induction false} FirstWordSplit(a: string) returns (ws: string, w: string, r: string)
    requires !AllSpace(a)
    ensures a == ws + (w + r) && |r| < |a|
    ensures AllSpace(ws) && w != [] && NoSpace(w) && (r == [] || IsSpace(r[0]))
  {
    LStripAllSpace(a);
    LStripSplit(a);
    var t := LStrip(a);
    ws := a[..|a| - |t|];
    w, r := WordSplit(t);
  }

  /** All-whitespace text before c: the words are those after c. */
  lemma {:induction false} WordsSpaceLeading(a: string, c: char, b: string)
    requires AllSpace(a) && IsSpace(c)
    ensures Words(a + [c] + b) == Words(a) + Words(b)
  {
    WordsAllSpace(a);
    assert AllSpace(a + [c]);
    WordsLeading(a + [c], b);
  }

  /** Splitting at one whitespace character: every whitespace character
      separates tokens, so the words of the two sides are simply concatenated. */
  lemma {:induction false} WordsSpace(a: string, c: char, b: string)
    requires IsSpace(c)
    ensures Words(a + [c] + b) == Words(a) + Words(b)
    decreases |a|
  {
    if AllSpace(a) {
      WordsSpaceLeading(a, c, b);
    } else {
      var ws, w, r := FirstWordSplit(a);
      WordsSpace(r, c, b);
      WordsSpaceStep(ws, w, r, c, b);
    }
  }

  /** Helper: regrouping a concatenation of five texts. */
  lemma {:induction false} Regroup(p: string, q: string, r: string, y: string, z: string)
    ensures p + (q + r) + y + z == p + (q + (r + y + z))
  {
    AppendAssoc(p, q + r, y);
    AppendAssoc(p, q + r + y, z);
    AppendAssoc(q, r, y);
    AppendAssoc(q, r + y, z);
  }

  /** Concatenation is associative. */
  lemma AppendAssoc<T>(x: seq<T>, y: seq<T>, z: seq<T>)
    ensures x + (y + z) == (x + y) + z
  {
  }

  /** '0'..'9' */
  predicate IsAsciiDigit(c: char) {
    '0' <= c <= '9'
  }

  /** `s.isdigit()` over ASCII */
  predicate IsDigit(s: string) {
    s != [] && forall i :: 0 <= i < |s| ==> IsAsciiDigit(s[i])
  }

  /** `s.replace(c, '')` for a one-character pattern */
  function Remove(s: string, c: char): string {
    if s == [] then [] else (if s[0] == c then [] else [s[0]]) + Remove(s[1..], c)
  }

  /** `replace(c, '')` deletes every c and keeps every other character. */
  lemma {:induction false} RemoveMembers(s: string, c: char)
    ensures forall x :: x in Remove(s, c) <==> x in s && x != c
    decreases |s|
  {
    if s != [] {
      RemoveMembers(s[1..], c);
      assert s == [s[0]] + s[1..];
    }
  }

  /** `replace(c, '')` works piece by piece: order and multiplicity of the
      other characters are kept. */
  lemma {:induction false} RemoveAppend(a: string, b: string, c: char)
    ensures Remove(a + b, c) == Remove(a, c) + Remove(b, c)
    decreases |a|
  {
    if a == [] {
      assert a + b == b;
    } else {
      var s := a + b;
      assert s[0] == a[0];
      assert s[1..] == a[1..] + b;
      RemoveAppend(a[1..], b, c);
      AppendAssoc(if a[0] == c then [] else [a[0]], Remove(a[1..], c), Remove(b, c));
    }
  }

  /** One character: c itself is deleted, any other character is kept. */
  lemma {:induction false} RemoveOne(x: char, c: char)
    ensures Remove([x], c) == if x == c then [] else [x]
  {
    assert [x][1..] == [];
  }

  /** ASCII upper-casing of one character. */
  function UpperChar(c: char): char {
    if 'a' <= c <= 'z' then (c as int - 32) as char else c
  }

  /** ASCII lower-casing of one character. */
  function LowerChar(c: char): char {
    if 'A' <= c <= 'Z' then (c as int + 32) as char else c
  }

  /** `s.upper()` over ASCII */
  function Upper(s: string): (r: string)
    ensures |r| == |s|
  {
    if s == [] then [] else [UpperChar(s[0])] + Upper(s[1..])
  }

  /** `s.lower()` over ASCII */
  function Lower(s: string): (r: string)
    ensures |r| == |s|
  {
    if s == [] then [] else [LowerChar(s[0])] + Lower(s[1..])
  }

  /** Upper-casing works character by character. */
  lemma {:induction false} UpperAt(s: string)
    ensures forall i :: 0 <= i < |s| ==> Upper(s)[i] == UpperChar(s[i])
    decreases |s|
  {
    if s != [] {
      UpperAt(s[1..]);
      assert forall i :: 1 <= i < |s| ==> Upper(s)[i] == Upper(s[1..])[i - 1];
    }
  }

  /** Lower-casing works character by character. */
  lemma {:induction false} LowerAt(s: string)
    ensures forall i :: 0 <= i < |s| ==> Lower(s)[i] == LowerChar(s[i])
    decreases |s|
  {
    if s != [] {
      LowerAt(s[1..]);
      assert forall i :: 1 <= i < |s| ==> Lower(s)[i] == Lower(s[1..])[i - 1];
    }
  }

  /** The character of one decimal digit. */
  function DigitChar(d: nat): (c: char)
    requires d < 10
    ensures IsAsciiDigit(c) && c as int - '0' as int == d
  {
    ('0' as int + d) as char
  }

  /** `str(n)` for a natural number: its decimal digits, most significant first. */
  function NatToString(n: nat): (r: string)
    ensures r != [] && forall i :: 0 <= i < |r| ==> IsAsciiDigit(r[i])
    ensures |r| > 1 ==> r[0] != '0'
  {
    if n < 10 then [DigitChar(n)] else NatToString(n / 10) + [DigitChar(n % 10)]
  }

  /** `int(s)` for a string of ASCII digits. */
  function DigitsValue(s: string): nat
    requires forall i :: 0 <= i < |s| ==> IsAsciiDigit(s[i])
  {
    if s == [] then 0
    else
      assert IsAsciiDigit(s[|s| - 1]);
      10 * DigitsValue(s[..|s| - 1]) + (s[|s| - 1] as int - '0' as int)
  }

  /** `int(str(n)) == n` */
  lemma {:induction false} NatToStringRoundTrip(n: nat)
    ensures DigitsValue(NatToString(n)) == n
  {
    if n >= 10 {
      NatToStringRoundTrip(n / 10);
      var s := NatToString(n);
      assert s[..|s| - 1] == NatToString(n / 10);
    }
  }

  /** Different numbers have different decimal strings. */
  lemma {:induction false} NatToStringInjective(m: nat, n: nat)
    ensures NatToString(m) == NatToString(n) ==> m == n
  {
    NatToStringRoundTrip(m);
    NatToStringRoundTrip(n);
  }
}
