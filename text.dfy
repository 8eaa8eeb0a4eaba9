/**
 * The handful of Python string and list operations the pipeline uses:
 * `str.strip()`, `str.split(sep)`, `sep.join(parts)`, slicing `xs[:n]` and the
 * "keep the entries whose strip() is non-empty" filter.
 */
module Text {

  function Min(a: int, b: int): int { if a <= b then a else b }

  /** Python's `str.isspace()` restricted to the Latin-1 range. */
  predicate IsSpace(c: char) {
    c == ' ' || c == '\t' || c == '\n' || c == '\r' || c == '\U{000B}' || c == '\U{000C}'
    || ('\U{001C}' <= c <= '\U{001F}') || c == '\U{0085}' || c == '\U{00A0}'
  }

  /** How many whitespace characters `s.lstrip()` drops. */
  function LeadingSpaces(s: string): (n: nat)
    ensures n <= |s|
    ensures forall k :: 0 <= k < n ==> IsSpace(s[k])
    ensures n == |s| || !IsSpace(s[n])
  {
    if s != [] && IsSpace(s[0]) then 1 + LeadingSpaces(s[1..]) else 0
  }

  /** `s.rstrip()`: drops the trailing whitespace and nothing else. */
  function TrimEnd(s: string): (r: string)
    ensures |r| <= |s| && r == s[..|r|]
    ensures r == [] || !IsSpace(r[|r| - 1])
    ensures forall i :: |r| <= i < |s| ==> IsSpace(s[i])
  {
    if s != [] && IsSpace(s[|s| - 1]) then TrimEnd(s[..|s| - 1]) else s
  }

  /** `s.strip()`: the infix of `s` left once whitespace is removed from both ends. */
  function Strip(s: string): (r: string)
    ensures LeadingSpaces(s) + |r| <= |s|
    ensures r == s[LeadingSpaces(s)..LeadingSpaces(s) + |r|]
    ensures forall k :: LeadingSpaces(s) + |r| <= k < |s| ==> IsSpace(s[k])
    ensures r == [] || (!IsSpace(r[0]) && !IsSpace(r[|r| - 1]))
  {
    TrimEnd(s[LeadingSpaces(s)..])
  }

  /** The negation of Python's truthiness of `s.strip()`: true exactly for whitespace-only strings. */
  predicate IsBlank(s: string): (blank: bool)
    ensures blank <==> LeadingSpaces(s) == |s|
  {
    Strip(s) == []
  }

  /** Blank means made of whitespace only, the empty string included. */
  lemma BlankIffAllSpace(s: string)
    ensures IsBlank(s) <==> forall k :: 0 <= k < |s| ==> IsSpace(s[k])
  {
  }

  /** A string whose first character is not whitespace is never blank. */
  lemma NotBlankIfFirstNotSpace(s: string)
    requires s != [] && !IsSpace(s[0])
    ensures !IsBlank(s)
  {
    BlankIffAllSpace(s);
  }

  lemma {:induction false} StripIdempotent(s: string)
    ensures Strip(Strip(s)) == Strip(s)
  {
    var r := Strip(s);
    if r != [] {
      assert LeadingSpaces(r) == 0;
      assert r[0..] == r;
    }
  }

  /** `s.split(sep)` for a one-character separator: never empty, no piece holds `sep`. */
  function Split(s: string, sep: char): (parts: seq<string>)
    ensures |parts| >= 1
    ensures forall p :: p in parts ==> sep !in p
    ensures parts[0] <= s && (|parts[0]| < |s| ==> s[|parts[0]|] == sep)
    decreases |s|
  {
    if s == [] then [[]]
    else
      var rest := Split(s[1..], sep);
      if s[0] == sep then [[]] + rest
      else [[s[0]] + rest[0]] + rest[1..]
  }

  /** `sep.join(parts)`: the first part opens the text, the last part closes it. */
  function Join(parts: seq<string>, sep: string): (text: string)
    ensures parts == [] ==> text == []
    ensures parts != [] ==> parts[0] <= text
    ensures |parts| >= 2 ==> |parts[0]| + |sep| <= |text| && text[|parts[0]|..|parts[0]| + |sep|] == sep
  {
    if |parts| == 0 then []
    else if |parts| == 1 then parts[0]
    else parts[0] + sep + Join(parts[1..], sep)
  }

  /** Joining the pieces of a split with the separator gives back the original text. */
  lemma {:induction false} JoinSplit(s: string, sep: char)
    ensures Join(Split(s, sep), [sep]) == s
    decreases |s|
  {
    if s != [] {
      JoinSplit(s[1..], sep);
      if s[0] == sep {
        JoinSplitSepFirst(s, sep);
      } else {
        JoinSplitCharFirst(s, sep);
      }
    }
  }

  lemma JoinCons(first: string, rest: seq<string>, sep: string)
    requires rest != []
    ensures Join([first] + rest, sep) == first + sep + Join(rest, sep)
  {
    assert ([first] + rest)[1..] == rest;
  }

  lemma JoinSplitSepFirst(s: string, sep: char)
    requires s != [] && s[0] == sep
    requires Join(Split(s[1..], sep), [sep]) == s[1..]
    ensures Join(Split(s, sep), [sep]) == s
  {
    var rest := Split(s[1..], sep);
    assert Split(s, sep) == [[]] + rest;
    JoinCons([], rest, [sep]);
    assert s == [] + [sep] + s[1..];
  }

  lemma JoinSplitCharFirst(s: string, sep: char)
    requires s != [] && s[0] != sep
    requires Join(Split(s[1..], sep), [sep]) == s[1..]
    ensures Join(Split(s, sep), [sep]) == s
  {
    var rest := Split(s[1..], sep);
    assert Split(s, sep) == [[s[0]] + rest[0]] + rest[1..];
    JoinGrowFirst(s[0], rest, [sep]);
    assert s == [s[0]] + s[1..];
  }

  /** Prepending a character to the first part prepends it to the joined text. */
  lemma JoinGrowFirst(c: char, parts: seq<string>, sep: string)
    requires parts != []
    ensures Join([[c] + parts[0]] + parts[1..], sep) == [c] + Join(parts, sep)
  {
    var head, tail := parts[0], parts[1..];
    if tail == [] {
      assert [[c] + head] + tail == [[c] + head];
    } else {
      var rest := Join(tail, sep);
      calc {
        Join([[c] + head] + tail, sep);
        { JoinCons([c] + head, tail, sep); }
        [c] + head + sep + rest;
        { AppendAssoc([c], head, sep); AppendAssoc([c], head + sep, rest); }
        [c] + (head + sep + rest);
        { assert parts == [head] + tail; JoinCons(head, tail, sep); }
        [c] + Join(parts, sep);
      }
    }
  }

  /** A string without the separator splits into itself alone. */
  lemma {:induction false} SplitNoSep(s: string, sep: char)
    requires sep !in s
    ensures Split(s, sep) == [s]
    decreases |s|
  {
    if s != [] {
      assert sep !in s[1..];
      SplitNoSep(s[1..], sep);
      assert s == [s[0]] + s[1..];
    }
  }

  /** The text before the first separator is the first piece, the rest splits on its own. */
  lemma {:induction false} SplitAtFirst(head: string, sep: char, tail: string)
    requires sep !in head
    ensures Split(head + [sep] + tail, sep) == [head] + Split(tail, sep)
    decreases |head|
  {
    var s := head + [sep] + tail;
    if head == [] {
      assert s[1..] == tail;
    } else {
      assert s[1..] == head[1..] + [sep] + tail;
      assert sep !in head[1..];
      SplitAtFirst(head[1..], sep, tail);
      assert head == [head[0]] + head[1..];
    }
  }

  /** Splitting a join whose parts are free of the separator recovers the parts. */
  lemma {:induction false} SplitJoin(parts: seq<string>, sep: char)
    requires |parts| >= 1
    requires forall p :: p in parts ==> sep !in p
    ensures Split(Join(parts, [sep]), sep) == parts
  {
    if |parts| == 1 {
      SplitNoSep(parts[0], sep);
    } else {
      assert parts[0] in parts;
      assert forall p :: p in parts[1..] ==> p in parts;
      SplitJoin(parts[1..], sep);
      SplitAtFirst(parts[0], sep, Join(parts[1..], [sep]));
      assert parts == [parts[0]] + parts[1..];
    }
  }

  /** Python's `xs[:n]`: the longest prefix of at most `n` elements. */
  function Take<T>(xs: seq<T>, n: nat): (r: seq<T>)
    ensures r <= xs
    ensures |r| == Min(n, |xs|)
  {
    if |xs| <= n then xs else xs[..n]
  }

  /** The list comprehension `[x for x in xs if x.strip()]`. */
  function KeepNonBlank(xs: seq<string>): (kept: seq<string>)
    ensures |kept| <= |xs|
  {
    if xs == [] then []
    else KeepNonBlank(xs[..|xs| - 1]) + (if IsBlank(xs[|xs| - 1]) then [] else [xs[|xs| - 1]])
  }

  /** Filtering commutes with concatenation, so it keeps relative order. */
  lemma {:induction false} KeepNonBlankAppend(xs: seq<string>, ys: seq<string>)
    ensures KeepNonBlank(xs + ys) == KeepNonBlank(xs) + KeepNonBlank(ys)
    decreases |ys|
  {
    if ys == [] {
      assert xs + ys == xs;
    } else {
      var init, last := ys[..|ys| - 1], ys[|ys| - 1];
      var tail := if IsBlank(last) then [] else [last];
      assert ys == init + [last];
      assert xs + ys == (xs + init) + [last];
      KeepNonBlankSnoc(xs + init, last);
      KeepNonBlankSnoc(init, last);
      KeepNonBlankAppend(xs, init);
      calc {
        KeepNonBlank(xs + ys);
        KeepNonBlank(xs + init) + tail;
        KeepNonBlank(xs) + KeepNonBlank(init) + tail;
        { AppendAssoc(KeepNonBlank(xs), KeepNonBlank(init), tail); }
        KeepNonBlank(xs) + (KeepNonBlank(init) + tail);
        KeepNonBlank(xs) + KeepNonBlank(ys);
      }
    }
  }

  lemma AppendAssoc<T>(a: seq<T>, b: seq<T>, c: seq<T>)
    ensures a + b + c == a + (b + c)
  {
  }

  lemma KeepNonBlankSnoc(xs: seq<string>, x: string)
    ensures KeepNonBlank(xs + [x]) == KeepNonBlank(xs) + if IsBlank(x) then [] else [x]
  {
    assert (xs + [x])[..|xs|] == xs;
  }

  /** Every kept entry is a non-blank entry of the input. */
  lemma {:induction false} KeepNonBlankSound(xs: seq<string>, x: string)
    requires x in KeepNonBlank(xs)
    ensures x in xs && !IsBlank(x)
  {
    var init, last := xs[..|xs| - 1], xs[|xs| - 1];
    KeepNonBlankSnoc(init, last);
    assert xs == init + [last];
    if x in KeepNonBlank(init) {
      KeepNonBlankSound(init, x);
    }
  }

  /** Nothing non-blank is dropped. */
  lemma {:induction false} KeepNonBlankComplete(xs: seq<string>, x: string)
    requires x in xs && !IsBlank(x)
    ensures x in KeepNonBlank(xs)
  {
    var init := xs[..|xs| - 1];
    if x != xs[|xs| - 1] {
      assert x in init by {
        var i :| 0 <= i < |xs| && xs[i] == x;
        assert init[i] == x;
      }
      KeepNonBlankComplete(init, x);
    }
  }

  /** A list without blank entries passes the filter unchanged. */
  lemma {:induction false} KeepNonBlankNoBlanks(xs: seq<string>)
    requires forall i :: 0 <= i < |xs| ==> !IsBlank(xs[i])
    ensures KeepNonBlank(xs) == xs
  {
    if xs != [] {
      var init, last := xs[..|xs| - 1], xs[|xs| - 1];
      forall i | 0 <= i < |init| ensures !IsBlank(init[i]) {
        assert init[i] == xs[i];
      }
      KeepNonBlankNoBlanks(init);
      assert !IsBlank(last);
      calc {
        KeepNonBlank(xs);
        KeepNonBlank(init) + [last];
        init + [last];
        { assert xs == init + [last]; }
        xs;
      }
    }
  }
}
