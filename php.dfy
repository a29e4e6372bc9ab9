/**
 * The PHP built-ins the player relies on, modelled concretely: string
 * truthiness, `urldecode`, `strtolower`, `pathinfo(..., PATHINFO_EXTENSION)`,
 * `explode` and `implode`. PHP strings are byte strings; a `char` here stands
 * for one byte.
 */
module Php {
  import opened Wrappers

  /** `if ($v)` / `!empty($v)` on a string-valued setting: only "" and "0"
      are falsy. A setting that is not stored at all reads as `false`, which
      the model represents by "" (same truthiness, never `=== 'cloud'`). */
  function Truthy(v: string): (b: bool)
    ensures !b <==> v in {"", "0"}
    ensures |v| >= 2 ==> b  // "00", "0.0" and " 0" are all truthy
  {
    v != "" && v != "0"
  }

  /** The loose comparison `$h != null` on an optional integer: `null` and
      `0` both compare equal to `null`. */
  function LooselyNonNull(h: Option<int>): (b: bool)
    ensures !b <==> h in {None, Some(0)}
  {
    h.Some? && h.value != 0
  }

  predicate IsByteString(s: string) {
    forall i :: 0 <= i < |s| ==> s[i] as int < 256
  }

  // ---------------------------------------------------------------- hex digits

  predicate IsHexDigit(c: char) {
    ('0' <= c <= '9') || ('a' <= c <= 'f') || ('A' <= c <= 'F')
  }

  function HexValue(c: char): (n: nat)
    requires IsHexDigit(c)
    ensures n < 16
  {
    if '0' <= c <= '9' then c as int - '0' as int
    else if 'a' <= c <= 'f' then c as int - 'a' as int + 10
    else c as int - 'A' as int + 10
  }

  /** Upper-case hex digit for a nibble; `HexValue` reads it back. */
  function HexDigit(n: nat): (c: char)
    requires n < 16
    ensures IsHexDigit(c) && HexValue(c) == n
  {
    if n < 10 then ('0' as int + n) as char else ('A' as int + n - 10) as char
  }

  // ---------------------------------------------------------------- urldecode

  /** PHP `urldecode`: `+` becomes a space, `%` followed by two hex digits
      becomes the byte they denote (section 2.1 of RFC 3986), and every other
      byte, including a `%` not followed by two hex digits, is kept. */
  function UrlDecode(s: string): (r: string)
    ensures |r| <= |s|
    decreases |s|
  {
    if s == [] then []
    else if s[0] == '+' then [' '] + UrlDecode(s[1..])
    else if s[0] == '%' && |s| >= 3 && IsHexDigit(s[1]) && IsHexDigit(s[2]) then
      [(16 * HexValue(s[1]) + HexValue(s[2])) as char] + UrlDecode(s[3..])
    else [s[0]] + UrlDecode(s[1..])
  }

  /** The unreserved characters of section 2.3 of RFC 3986. */
  predicate IsUnreserved(c: char) {
    ('a' <= c <= 'z') || ('A' <= c <= 'Z') || ('0' <= c <= '9') ||
    c == '-' || c == '.' || c == '_' || c == '~'
  }

  /** Percent-encoding of every byte that is not unreserved (section 2.1 of
      RFC 3986, as PHP's `rawurlencode` does it): the reference encoder that
      `UrlDecode` inverts. */
  function PercentEncode(s: string): (r: string)
    requires IsByteString(s)
    ensures forall i :: 0 <= i < |r| ==> IsUnreserved(r[i]) || r[i] == '%'
    decreases |s|
  {
    if s == [] then []
    else
      var head :=
        if IsUnreserved(s[0]) then [s[0]]
        else ['%', HexDigit(s[0] as int / 16), HexDigit(s[0] as int % 16)];
      head + PercentEncode(s[1..])
  }

  /** Decoding undoes percent-encoding, for every byte string. */
  lemma {:induction false} UrlDecodePercentEncode(s: string)
    requires IsByteString(s)
    ensures UrlDecode(PercentEncode(s)) == s
    decreases |s|
  {
    if s != [] {
      var e := PercentEncode(s);
      var rest := PercentEncode(s[1..]);
      UrlDecodePercentEncode(s[1..]);
      if IsUnreserved(s[0]) {
        assert e == [s[0]] + rest;
        assert e[1..] == rest;
      } else {
        var v := s[0] as int;
        var hi, lo := HexDigit(v / 16), HexDigit(v % 16);
        assert e == ['%', hi, lo] + rest;
        assert e[3..] == rest;
        assert (16 * HexValue(hi) + HexValue(lo)) as char == s[0];
      }
      assert UrlDecode(e) == [s[0]] + UrlDecode(rest);
      assert s == [s[0]] + s[1..];
    }
  }

  /** Decoding works piecewise after a prefix that holds no `%`. */
  lemma {:induction false} UrlDecodeConcat(a: string, b: string)
    requires '%' !in a
    ensures UrlDecode(a + b) == UrlDecode(a) + UrlDecode(b)
    decreases |a|
  {
    if a == [] {
      assert a + b == b;
    } else {
      var a' := a[1..];
      assert a[0] != '%' && (a + b)[0] == a[0];
      assert '%' !in a' by {
        forall k | 0 <= k < |a'| ensures a'[k] != '%' {
          assert a'[k] == a[k + 1];
        }
      }
      UrlDecodeConcat(a', b);
      assert (a + b)[1..] == a' + b;
      var head := if a[0] == '+' then [' '] else [a[0]];
      assert UrlDecode(a + b) == head + UrlDecode(a' + b);
      assert UrlDecode(a) == head + UrlDecode(a');
      assert head + (UrlDecode(a') + UrlDecode(b)) == (head + UrlDecode(a')) + UrlDecode(b);
    }
  }

  /** An encoded space between two plain parts decodes to a space. */
  lemma UrlDecodeSpace(p: string, rest: string)
    requires '%' !in p && '+' !in p && '%' !in rest && '+' !in rest
    ensures UrlDecode(p + "%20" + rest) == p + " " + rest
  {
    var t := ['%', '2', '0'] + rest;
    assert p + "%20" + rest == p + t;
    DecodeEscape('2', '0', rest);
    assert HexValue('2') == 2 && HexValue('0') == 0;
    UrlDecodePlain(rest);
    assert UrlDecode(t) == [' '] + rest;
    UrlDecodeConcat(p, t);
    UrlDecodePlain(p);
    assert p + " " + rest == p + ([' '] + rest);
  }

  lemma DecodeEscape(h: char, l: char, rest: string)
    requires IsHexDigit(h) && IsHexDigit(l)
    ensures UrlDecode(['%', h, l] + rest) == [(16 * HexValue(h) + HexValue(l)) as char] + UrlDecode(rest)
  {
    assert (['%', h, l] + rest)[3..] == rest;
  }

  /** Without escapes, decoding only turns each `+` into a space: the rule
      that sets `urldecode` apart from `rawurldecode`. */
  lemma {:induction false} UrlDecodeNoPercent(s: string)
    requires '%' !in s
    ensures |UrlDecode(s)| == |s|
    ensures forall i :: 0 <= i < |s| ==> UrlDecode(s)[i] == (if s[i] == '+' then ' ' else s[i])
    decreases |s|
  {
    if s != [] {
      assert s[0] in s;
      assert '%' !in s[1..] by {
        forall k | 0 <= k < |s| - 1 ensures s[1..][k] != '%' {
          assert s[1..][k] == s[k + 1];
        }
      }
      UrlDecodeNoPercent(s[1..]);
      var head := if s[0] == '+' then [' '] else [s[0]];
      assert UrlDecode(s) == head + UrlDecode(s[1..]);
    }
  }

  /** Hex digits of either case are accepted in an escape: `%2f` and `%2F`
      both decode to `/`. */
  lemma UrlDecodeSlashEscape(rest: string)
    ensures UrlDecode("%2f" + rest) == "/" + UrlDecode(rest)
    ensures UrlDecode("%2F" + rest) == "/" + UrlDecode(rest)
  {
    DecodeEscape('2', 'f', rest);
    DecodeEscape('2', 'F', rest);
    assert "%2f" + rest == ['%', '2', 'f'] + rest;
    assert "%2F" + rest == ['%', '2', 'F'] + rest;
  }

  /** A `%` not followed by two hex digits is kept as it is. */
  lemma UrlDecodeBarePercent(s: string)
    requires |s| >= 1 && s[0] == '%'
    requires |s| < 3 || !IsHexDigit(s[1]) || !IsHexDigit(s[2])
    ensures UrlDecode(s) == ['%'] + UrlDecode(s[1..])
  {
  }

  /** A string without `%` and `+` decodes to itself. */
  lemma {:induction false} UrlDecodePlain(s: string)
    requires '%' !in s && '+' !in s
    ensures UrlDecode(s) == s
    decreases |s|
  {
    if s != [] {
      assert s[0] in s;
      assert forall c :: c in s[1..] ==> c in s;
      UrlDecodePlain(s[1..]);
      assert s == [s[0]] + s[1..];
    }
  }

  // ---------------------------------------------------------------- strtolower

  function LowerChar(c: char): char {
    if 'A' <= c <= 'Z' then (c as int + 32) as char else c
  }

  /** `strtolower` on ASCII letters; other bytes are kept. */
  function Lower(s: string): (r: string)
    ensures |r| == |s|
    decreases |s|
  {
    if s == [] then [] else [LowerChar(s[0])] + Lower(s[1..])
  }

  /** Each byte of `Lower(s)` is the lower-cased byte of `s` at that place. */
  lemma {:induction false} LowerAt(s: string, i: nat)
    requires i < |s|
    ensures Lower(s)[i] == LowerChar(s[i])
    decreases |s|
  {
    if i > 0 {
      LowerAt(s[1..], i - 1);
    }
  }

  /** A byte lower-cases to the letter `lo` exactly when it is `lo` or its
      upper-case form. */
  lemma LowerCharIs(c: char, lo: char)
    requires 'a' <= lo <= 'z'
    ensures LowerChar(c) == lo <==> c == lo || c as int == lo as int - 32
  {
  }

  /** A string lower-cases to "mov" exactly when it spells "mov" in any mix
      of cases. */
  lemma LowerIsMov(s: string)
    ensures Lower(s) == "mov" <==>
      |s| == 3 && s[0] in {'m', 'M'} && s[1] in {'o', 'O'} && s[2] in {'v', 'V'}
  {
    if |s| == 3 {
      var l := Lower(s);
      LowerAt(s, 0);
      LowerAt(s, 1);
      LowerAt(s, 2);
      LowerCharIs(s[0], 'm');
      LowerCharIs(s[1], 'o');
      LowerCharIs(s[2], 'v');
      assert l == "mov" <==> l[0] == 'm' && l[1] == 'o' && l[2] == 'v' by {
        if l[0] == 'm' && l[1] == 'o' && l[2] == 'v' {
          assert l == [l[0], l[1], l[2]];
        }
      }
    }
  }

  // ---------------------------------------------------------------- pathinfo

  /** `s` without its trailing run of `/`. */
  function TrimTrailingSlashes(s: string): string
    decreases |s|
  {
    if s != [] && s[|s| - 1] == '/' then TrimTrailingSlashes(s[..|s| - 1]) else s
  }

  /** The part of `s` after its last `c`, or all of `s` when it has no `c`. */
  function AfterLast(s: string, c: char): (r: string)
    ensures c !in r
    decreases |s|
  {
    if s == [] then []
    else if s[|s| - 1] == c then []
    else AfterLast(s[..|s| - 1], c) + [s[|s| - 1]]
  }

  /** PHP's `basename` as `pathinfo` uses it: the last run of non-`/` bytes. */
  function Basename(path: string): (r: string)
    ensures '/' !in r
  {
    AfterLast(TrimTrailingSlashes(path), '/')
  }

  /** `pathinfo($path, PATHINFO_EXTENSION)`: what follows the last `.` of the
      basename, or "" when the basename has no `.`. */
  function Extension(path: string): (r: string)
    ensures '.' !in r
  {
    var b := Basename(path);
    if '.' in b then AfterLast(b, '.') else []
  }

  /** What follows the last `c` of `u + [c] + t`, when `t` holds no `c`, is `t`. */
  lemma {:induction false} AfterLastAppend(u: string, c: char, t: string)
    requires forall i :: 0 <= i < |t| ==> t[i] != c
    ensures AfterLast(u + [c] + t, c) == t
    decreases |t|
  {
    var s := u + [c] + t;
    if t == [] {
      assert s[|s| - 1] == c;
    } else {
      var t' := t[..|t| - 1];
      AfterLastAppend(u, c, t');
      assert s[|s| - 1] == t[|t| - 1];
      assert s[..|s| - 1] == u + [c] + t';
      assert t == t' + [t[|t| - 1]];
    }
  }

  /** The basename of `dir/name` is `name`, for any non-empty name without
      a `/`. */
  lemma BasenameOfPath(dir: string, name: string)
    requires '/' !in name && name != []
    ensures Basename(dir + "/" + name) == name
  {
    var path := dir + ['/'] + name;
    assert dir + "/" + name == path;
    assert path[|path| - 1] == name[|name| - 1];
    assert TrimTrailingSlashes(path) == path;
    AfterLastAppend(dir, '/', name);
  }

  /** A last path segment without a `.` has the empty extension, whatever
      dots the rest of the path holds (`http://video.mov/clip`). */
  lemma ExtensionNoDot(dir: string, name: string)
    requires '/' !in name && '.' !in name && name != []
    ensures Extension(dir + "/" + name) == []
  {
    BasenameOfPath(dir, name);
  }

  /** The extension of `dir/stem.ext` is `ext`, whatever the directory and
      the stem hold (the stem may contain dots). */
  lemma ExtensionOfFileName(dir: string, stem: string, ext: string)
    requires '/' !in stem && '/' !in ext && '.' !in ext
    ensures Extension(dir + "/" + stem + "." + ext) == ext
  {
    var name := stem + "." + ext;
    var path := dir + ['/'] + name;
    assert dir + "/" + stem + "." + ext == path;
    assert path[|path| - 1] != '/';
    assert TrimTrailingSlashes(path) == path;
    forall i | 0 <= i < |name| ensures name[i] != '/' {
      if i < |stem| { assert name[i] == stem[i]; }
      else if i > |stem| { assert name[i] == ext[i - |stem| - 1]; }
    }
    AfterLastAppend(dir, '/', name);
    assert Basename(path) == name;
    assert name[|stem|] == '.';
    assert name == stem + ['.'] + ext;
    AfterLastAppend(stem, '.', ext);
  }

  // ---------------------------------------------------------------- explode / implode

  /** `explode($d, $s)`: the pieces of `s` between occurrences of `d`; the
      empty string gives one empty piece. */
  function Explode(d: char, s: string): (r: seq<string>)
    ensures |r| >= 1
    ensures forall i :: 0 <= i < |r| ==> d !in r[i]
    decreases |s|
  {
    if s == [] then [[]]
    else if s[0] == d then [[]] + Explode(d, s[1..])
    else
      var rest := Explode(d, s[1..]);
      [[s[0]] + rest[0]] + rest[1..]
  }

  /** `implode($d, $parts)`. */
  function Implode(d: char, parts: seq<string>): string
    decreases |parts|
  {
    if |parts| == 0 then []
    else if |parts| == 1 then parts[0]
    else parts[0] + [d] + Implode(d, parts[1..])
  }

  lemma {:induction false} ImplodeCons(d: char, p: string, parts: seq<string>)
    requires |parts| >= 1
    ensures Implode(d, [p] + parts) == p + [d] + Implode(d, parts)
  {
    assert ([p] + parts)[1..] == parts;
  }

  /** Joining the pieces back with the separator gives the original string. */
  lemma {:induction false} ImplodeExplode(d: char, s: string)
    ensures Implode(d, Explode(d, s)) == s
    decreases |s|
  {
    if s != [] {
      ImplodeExplode(d, s[1..]);
      var rest := Explode(d, s[1..]);
      if s[0] == d {
        assert Explode(d, s) == [[]] + rest;
        ImplodeCons(d, [], rest);
      } else {
        assert Explode(d, s) == [[s[0]] + rest[0]] + rest[1..];
        ImplodeExtendFirst(d, s[0], rest);
      }
      assert s == [s[0]] + s[1..];
    }
  }

  /** Prefixing the first piece prefixes the joined string. */
  lemma ImplodeExtendFirst(d: char, c: char, parts: seq<string>)
    requires |parts| >= 1
    ensures Implode(d, [[c] + parts[0]] + parts[1..]) == [c] + Implode(d, parts)
  {
    if |parts| > 1 {
      ImplodeCons(d, [c] + parts[0], parts[1..]);
      ImplodeCons(d, parts[0], parts[1..]);
      assert parts == [parts[0]] + parts[1..];
    }
  }

  lemma {:induction false} ExplodeNoSeparator(d: char, a: string)
    requires d !in a
    ensures Explode(d, a) == [a]
    decreases |a|
  {
    if a != [] {
      assert a[0] in a;
      assert forall x :: x in a[1..] ==> x in a;
      ExplodeNoSeparator(d, a[1..]);
      assert a == [a[0]] + a[1..];
    }
  }

  lemma {:induction false} ExplodeAppend(d: char, a: string, b: string)
    requires d !in a
    ensures Explode(d, a + [d] + b) == [a] + Explode(d, b)
    decreases |a|
  {
    var s := a + [d] + b;
    if a == [] {
      assert s[1..] == b;
    } else {
      assert a[0] in a;
      assert forall x :: x in a[1..] ==> x in a;
      ExplodeAppend(d, a[1..], b);
      assert s[1..] == a[1..] + [d] + b;
      assert a == [a[0]] + a[1..];
    }
  }

  /** Splitting a joined list gives the list back when no piece contains the
      separator. */
  lemma {:induction false} ExplodeImplode(d: char, parts: seq<string>)
    requires |parts| >= 1
    requires forall i :: 0 <= i < |parts| ==> d !in parts[i]
    ensures Explode(d, Implode(d, parts)) == parts
    decreases |parts|
  {
    if |parts| == 1 {
      ExplodeNoSeparator(d, parts[0]);
    } else {
      ExplodeImplode(d, parts[1..]);
      ExplodeAppend(d, parts[0], Implode(d, parts[1..]));
      assert parts == [parts[0]] + parts[1..];
    }
  }
}
