/**
 * String helpers shared by the three components: the Python string and path
 * operations they use (`startswith`, `endswith`, `lower`, `replace`, `join`,
 * `pathlib.Path.suffix`) and the ascending text order used by `ORDER BY`.
 */
module TextUtil {
  /** `s.startswith(p)` */
  predicate StartsWith(s: string, p: string) {
    |p| <= |s| && s[..|p|] == p
  }

  /** `s.endswith(p)` */
  predicate EndsWith(s: string, p: string) {
    |p| <= |s| && s[|s| - |p|..] == p
  }

  /** A string that ends with `p` still does after text is put in front of it. */
  lemma EndsWithExtended(a: string, s: string, p: string)
    requires EndsWith(s, p)
    ensures EndsWith(a + s, p)
  {
    assert (a + s)[|a + s| - |p|..] == s[|s| - |p|..];
  }

  /** Lower-casing of one character; only the ASCII letters A-Z change. */
  function LowerChar(c: char): (r: char)
    ensures 'A' <= c <= 'Z' ==> 'a' <= r <= 'z'
    ensures !('A' <= c <= 'Z') ==> r == c
  {
    if 'A' <= c <= 'Z' then (c as int + 32) as char else c
  }

  /** `s.lower()`, restricted to ASCII letters. */
  function Lower(s: string): (r: string)
    ensures |r| == |s|
    ensures forall i :: 0 <= i < |s| ==> r[i] == LowerChar(s[i])
  {
    seq(|s|, i requires 0 <= i < |s| => LowerChar(s[i]))
  }

  /** `s.rfind(c)`: the last index holding `c`, or -1 when `c` does not occur. */
  function RFind(s: string, c: char): (i: int)
    ensures -1 <= i < |s|
    ensures 0 <= i ==> s[i] == c
    ensures forall j :: i < j < |s| ==> s[j] != c
  {
    if |s| == 0 then -1
    else if s[|s| - 1] == c then |s| - 1
    else RFind(s[..|s| - 1], c)
  }

  /**
   * `PurePosixPath(p).name`: the last component of the '/'-separated path
   * that is neither empty nor ".", or the empty string when there is none
   * (pathlib drops empty and "." components when it parses a path).
   */
  function BaseName(path: string): (name: string)
    ensures '/' !in name
    ensures !(|name| == 1 && name[0] == '.')
    decreases |path|
  {
    var i := RFind(path, '/');
    var last := path[i + 1..];
    if !Dropped(last) then last
    else if i < 0 then ""
    else BaseName(path[..i])
  }

  /** The components pathlib drops: the empty one and ".". */
  predicate Dropped(component: string) {
    |component| == 0 || (|component| == 1 && component[0] == '.')
  }

  /** A trailing separator, or a trailing "/.", does not change the name. */
  lemma TrailingComponentIgnored(path: string)
    ensures BaseName(path + "/") == BaseName(path)
    ensures BaseName(path + "/.") == BaseName(path)
  {
    var p, q := path + "/", path + "/.";
    assert RFind(p, '/') == |path|;
    assert p[..|path|] == path;
    assert RFind(q[..|q| - 1], '/') == |path|;
    assert RFind(q, '/') == |path|;
    assert q[|path| + 1..] == ".";
    assert q[..|path|] == path;
  }

  /**
   * The suffix of a final path component: its text from its last '.',
   * provided that dot is neither the first nor the last character; otherwise
   * the empty string.
   */
  function NameSuffix(name: string): (ext: string)
    ensures ext == "" || (ext[0] == '.' && 2 <= |ext| && '.' !in ext[1..])
    ensures EndsWith(name, ext)
  {
    var i := RFind(name, '.');
    if 0 < i < |name| - 1 then name[i..] else ""
  }

  /** `Path(p).suffix` */
  function Suffix(path: string): (ext: string)
    ensures ext == "" || (ext[0] == '.' && 2 <= |ext| && '.' !in ext[1..] && '/' !in ext)
  {
    NameSuffix(BaseName(path))
  }

  /** Lower-casing leaves '.' and '/' where they were, so it commutes with finding them. */
  lemma {:induction false} RFindLower(s: string, c: char)
    requires !('a' <= c <= 'z') && !('A' <= c <= 'Z')
    ensures RFind(Lower(s), c) == RFind(s, c)
  {
    if |s| > 0 {
      var last := |s| - 1;
      assert Lower(s)[last] == LowerChar(s[last]);
      assert LowerChar(s[last]) == c <==> s[last] == c;
      assert Lower(s)[..last] == Lower(s[..last]);
      RFindLower(s[..last], c);
    }
  }

  /** Characters appended after the last occurrence of `c`, none of them `c`, leave `rfind` unchanged. */
  lemma {:induction false} RFindAppend(a: string, b: string, c: char)
    requires c !in b
    ensures RFind(a + b, c) == RFind(a, c)
  {
    if |b| == 0 {
      assert a + b == a;
    } else {
      assert (a + b)[|a + b| - 1] == b[|b| - 1] != c;
      assert (a + b)[..|a + b| - 1] == a + b[..|b| - 1];
      RFindAppend(a, b[..|b| - 1], c);
    }
  }

  /** `rfind` finds the occurrence after which the character no longer appears. */
  lemma RFindLast(s: string, c: char, i: nat)
    requires i < |s| && s[i] == c
    requires forall j :: i < j < |s| ==> s[j] != c
    ensures RFind(s, c) == i
  {
  }

  /**
   * A name that is a single component, neither empty nor ".", is its own
   * base name, and it is the base name of any path that ends in it after a
   * separator.
   */
  lemma BaseNameOfName(dir: string, name: string)
    ensures '/' !in name && !Dropped(name) ==> BaseName(name) == name && BaseName(dir + "/" + name) == name
  {
    if '/' !in name && !Dropped(name) {
      assert RFind(name, '/') == -1;
      assert name[0..] == name;
      var p := dir + "/" + name;
      RFindAppend(dir + "/", name, '/');
      RFindLast(dir + "/", '/', |dir|);
      assert p[|dir| + 1..] == name;
    }
  }

  /** When the last '.' of a name is neither its first nor its last character, the suffix starts at that dot. */
  lemma NameSuffixOfLastDot(name: string, i: int)
    ensures 0 < i < |name| - 1 && name[i] == '.' && '.' !in name[i + 1..] ==> NameSuffix(name) == name[i..]
  {
    if 0 < i < |name| - 1 && name[i] == '.' && '.' !in name[i + 1..] {
      assert forall j :: i < j < |name| ==> name[j] == name[i + 1..][j - i - 1];
      RFindLast(name, '.', i);
    }
  }

  /** A name with no '.' after its first character, or one ending in '.', has no suffix. */
  lemma NoNameSuffix(name: string)
    ensures (|name| <= 1 || '.' !in name[1..]) ==> NameSuffix(name) == ""
    ensures |name| > 0 && name[|name| - 1] == '.' ==> NameSuffix(name) == ""
  {
    var i := RFind(name, '.');
    if 0 < i && |name| > 1 {
      assert name[1..][i - 1] == name[i];
    }
    if |name| > 0 && name[|name| - 1] == '.' {
      RFindLast(name, '.', |name| - 1);
    }
  }

  /**
   * The suffix of a file named `stem + ext`, with `ext` a dot and at least
   * one character that is neither '.' nor '/', is `ext`, whether the name
   * stands alone or after a directory.
   */
  lemma SuffixOfFile(dir: string, stem: string, ext: string)
    ensures |stem| > 0 && '/' !in stem && |ext| >= 2 && ext[0] == '.' && '.' !in ext[1..] && '/' !in ext ==>
      Suffix(stem + ext) == ext && Suffix(dir + "/" + (stem + ext)) == ext
  {
    if |stem| > 0 && '/' !in stem && |ext| >= 2 && ext[0] == '.' && '.' !in ext[1..] && '/' !in ext {
      var name := stem + ext;
      assert forall j :: 0 <= j < |name| ==> name[j] != '/' by {
        assert forall j :: 0 <= j < |stem| ==> name[j] == stem[j];
        assert forall j :: |stem| <= j < |name| ==> name[j] == ext[j - |stem|];
      }
      BaseNameOfName(dir, name);
      assert name[|stem| + 1..] == ext[1..];
      NameSuffixOfLastDot(name, |stem|);
      assert name[|stem|..] == ext;
    }
  }

  lemma LowerSlice(s: string, i: nat, j: nat)
    requires i <= j <= |s|
    ensures Lower(s)[i..j] == Lower(s[i..j])
  {
  }

  lemma {:induction false} BaseNameLower(path: string)
    ensures BaseName(Lower(path)) == Lower(BaseName(path))
    decreases |path|
  {
    var i := RFind(path, '/');
    var lower := Lower(path);
    LowerAroundSeparator(path);
    DroppedLower(path[i + 1..]);
    BaseNameCases(path);
    BaseNameCases(lower);
    if !Dropped(path[i + 1..]) {
      assert BaseName(lower) == lower[i + 1..];
    } else if i < 0 {
      assert BaseName(lower) == "" == BaseName(path);
      assert |Lower(BaseName(path))| == 0;
    } else {
      assert BaseName(lower) == BaseName(lower[..i]);
      BaseNameLower(path[..i]);
    }
  }

  /** One step of `BaseName`: the last component, or the name of what comes before it. */
  lemma BaseNameCases(path: string)
    ensures var i := RFind(path, '/');
      BaseName(path) == if !Dropped(path[i + 1..]) then path[i + 1..] else if i < 0 then "" else BaseName(path[..i])
  {
  }

  /** Lower-casing keeps the last '/' in place and lower-cases the text on each side of it. */
  lemma LowerAroundSeparator(path: string)
    ensures RFind(Lower(path), '/') == RFind(path, '/')
    ensures Lower(path)[RFind(path, '/') + 1..] == Lower(path[RFind(path, '/') + 1..])
    ensures RFind(path, '/') >= 0 ==> Lower(path)[..RFind(path, '/')] == Lower(path[..RFind(path, '/')])
  {
    RFindLower(path, '/');
    var i := RFind(path, '/');
    LowerDrop(path, i + 1);
    if i >= 0 {
      LowerTake(path, i);
    }
  }

  lemma LowerDrop(s: string, i: nat)
    requires i <= |s|
    ensures Lower(s)[i..] == Lower(s[i..])
  {
  }

  lemma LowerTake(s: string, j: nat)
    requires j <= |s|
    ensures Lower(s)[..j] == Lower(s[..j])
  {
  }

  /** Lower-casing neither drops nor keeps a component that it did not before. */
  lemma DroppedLower(component: string)
    ensures Dropped(Lower(component)) <==> Dropped(component)
  {
  }

  /**
   * Taking the suffix and lower-casing commute: `Path(p).suffix.lower()` is
   * the suffix of the lower-cased path, so every decision taken on it depends
   * only on the path up to letter case.
   */
  lemma SuffixOfLower(path: string)
    ensures Lower(Suffix(path)) == Suffix(Lower(path))
  {
    BaseNameLower(path);
    NameSuffixLower(BaseName(path));
  }

  lemma NameSuffixLower(name: string)
    ensures Lower(NameSuffix(name)) == NameSuffix(Lower(name))
  {
    RFindLower(name, '.');
    var i := RFind(name, '.');
    if 0 < i < |name| - 1 {
      NameSuffixAt(name, i);
      NameSuffixAt(Lower(name), i);
      LowerSlice(name, i, |name|);
      assert Lower(NameSuffix(name)) == Lower(name[i..]);
      assert NameSuffix(Lower(name)) == Lower(name)[i..];
    } else {
      var e := NameSuffix(name);
      assert e == "";
      assert NameSuffix(Lower(name)) == "";
      assert Lower(e) == "";
    }
  }

  lemma NameSuffixAt(name: string, i: int)
    requires i == RFind(name, '.') && 0 < i < |name| - 1
    ensures NameSuffix(name) == name[i..]
  {
  }

  /**
   * `s.replace(pat, rep)`: every non-overlapping occurrence of `pat`, scanned
   * from the left, is replaced by `rep`.
   */
  function ReplaceAll(s: string, pat: string, rep: string): (r: string)
    requires |pat| > 0
    ensures StartsWith(s, pat) ==> StartsWith(r, rep)
    decreases |s|
  {
    if |s| < |pat| then s
    else if s[..|pat|] == pat then rep + ReplaceAll(s[|pat|..], pat, rep)
    else [s[0]] + ReplaceAll(s[1..], pat, rep)
  }

  lemma AppendEmpty(s: string)
    ensures "" + s == s
  {
  }

  lemma AppendAssoc<T>(a: seq<T>, b: seq<T>, c: seq<T>)
    ensures a + (b + c) == (a + b) + c
  {
  }

  /** `sep.join(parts)` */
  function Join(parts: seq<string>, sep: string): string
  {
    if |parts| == 0 then ""
    else if |parts| == 1 then parts[0]
    else parts[0] + sep + Join(parts[1..], sep)
  }

  /** Joining two non-empty lists is joining each and putting a separator between them. */
  lemma {:induction false} JoinAppend(a: seq<string>, b: seq<string>, sep: string)
    requires |a| > 0 && |b| > 0
    ensures Join(a + b, sep) == Join(a, sep) + sep + Join(b, sep)
  {
    assert (a + b)[0] == a[0];
    if |a| == 1 {
      assert (a + b)[1..] == b;
    } else {
      assert (a + b)[1..] == a[1..] + b;
      JoinAppend(a[1..], b, sep);
    }
  }

  /**
   * Every part sits in the joined text, in its place: the parts before it
   * joined, a separator, the part, a separator, the parts after it joined.
   */
  lemma JoinAt(parts: seq<string>, sep: string, i: nat)
    requires i < |parts|
    ensures Join(parts, sep) ==
      Join(parts[..i], sep) + (if i > 0 then sep else "") + parts[i]
      + (if i + 1 < |parts| then sep + Join(parts[i + 1..], sep) else "")
  {
    var before, after := parts[..i], parts[i + 1..];
    var tail := [parts[i]] + after;
    assert parts == before + tail;
    if i + 1 < |parts| {
      JoinAppend([parts[i]], after, sep);
    } else {
      assert tail == [parts[i]];
    }
    if i > 0 {
      JoinAppend(before, tail, sep);
    } else {
      assert parts == tail;
    }
  }

  /** A non-empty join starts with its first part. */
  lemma JoinHead(parts: seq<string>, sep: string)
    requires |parts| > 0
    ensures StartsWith(Join(parts, sep), parts[0])
  {
    if |parts| > 1 {
      assert Join(parts, sep) == parts[0] + (sep + Join(parts[1..], sep));
    }
  }

  /** The same text on both sides of two middles makes the middles equal. */
  lemma CancelAround(head: string, mid: string, mid': string, tail: string)
    requires head + (mid + tail) == head + (mid' + tail)
    ensures mid == mid'
  {
    var s := head + (mid + tail);
    assert |mid| == |mid'|;
    assert mid == s[|head|..|head| + |mid|];
    assert mid' == s[|head|..|head| + |mid|];
  }

  /** Ascending text order, character by character on code points; a proper prefix comes first. */
  predicate StrLess(a: string, b: string)
    decreases |a|
  {
    if |b| == 0 then false
    else if |a| == 0 then true
    else if a[0] != b[0] then a[0] < b[0]
    else StrLess(a[1..], b[1..])
  }

  lemma {:induction false} StrLessIrreflexive(a: string)
    ensures !StrLess(a, a)
    decreases |a|
  {
    if |a| > 0 {
      StrLessIrreflexive(a[1..]);
    }
  }

  lemma {:induction false} StrLessTransitive(a: string, b: string, c: string)
    requires StrLess(a, b) && StrLess(b, c)
    ensures StrLess(a, c)
    decreases |a|
  {
    if |a| > 0 && a[0] == b[0] && b[0] == c[0] {
      StrLessTransitive(a[1..], b[1..], c[1..]);
    }
  }

  lemma {:induction false} StrLessTotal(a: string, b: string)
    requires a != b
    ensures StrLess(a, b) || StrLess(b, a)
    decreases |a|
  {
    if |a| > 0 && |b| > 0 && a[0] == b[0] {
      assert a == [a[0]] + a[1..] && b == [b[0]] + b[1..];
      StrLessTotal(a[1..], b[1..]);
    }
  }
}
