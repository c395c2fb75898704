/** Values and string operations shared by every component of the model:
    option and result wrappers for backend and platform outcomes, and the
    few JavaScript string operations the components rely on (trim, split,
    includes, and the case maps). */
module Common {

  datatype Option<+T> = None | Some(value: T)

  /** The outcome of a backend or HTTP call. `Err` carries the error's
      `message` property (possibly empty). */
  datatype Result<+T> = Ok(value: T) | Err(message: string)

  /** The browser's Notification permission. */
  datatype Permission = Default | Granted | Denied

  /** What the page can see of the Notification API: whether
      `window.Notification` exists, and its current permission. */
  datatype NotificationEnv = NotificationEnv(supported: bool, permission: Permission)

  /** An entry of a Select component's `options`: `{ value, label }`. */
  datatype SelectOption = SelectOption(value: string, caption: string)

  // ---------------------------------------------------------------------
  // String.prototype.trim

  /** The characters ECMAScript counts as WhiteSpace or LineTerminator. */
  predicate IsJsWhitespace(c: char)
  {
    || c == '\U{9}' || c == '\U{A}' || c == '\U{B}' || c == '\U{C}' || c == '\U{D}'
    || c == ' ' || c == '\U{A0}' || c == '\U{1680}'
    || ('\U{2000}' <= c <= '\U{200A}')
    || c == '\U{2028}' || c == '\U{2029}' || c == '\U{202F}' || c == '\U{205F}'
    || c == '\U{3000}' || c == '\U{FEFF}'
  }

  predicate AllWhitespace(s: string)
  {
    forall k :: 0 <= k < |s| ==> IsJsWhitespace(s[k])
  }

  /** Drops the leading white space: the result is a suffix of `s` that
      does not start with white space. */
  function TrimStart(s: string): (r: string)
    ensures |r| <= |s| && r == s[|s| - |r|..]
    ensures r == [] || !IsJsWhitespace(r[0])
  {
    if s != [] && IsJsWhitespace(s[0]) then TrimStart(s[1..]) else s
  }

  /** Drops the trailing white space: the result is a prefix of `s` that
      does not end with white space. */
  function TrimEnd(s: string): (r: string)
    ensures |r| <= |s| && r == s[..|r|]
    ensures r == [] || !IsJsWhitespace(r[|r| - 1])
  {
    if s != [] && IsJsWhitespace(s[|s| - 1]) then TrimEnd(s[..|s| - 1]) else s
  }

  function Trim(s: string): string
  {
    TrimEnd(TrimStart(s))
  }

  /** What TrimStart drops is white space. */
  lemma {:induction false} TrimStartDropsWhitespace(s: string)
    ensures AllWhitespace(s[..|s| - |TrimStart(s)|])
  {
    if s != [] && IsJsWhitespace(s[0]) {
      var t := s[1..];
      TrimStartDropsWhitespace(t);
      var n := |t| - |TrimStart(t)|;
      var dropped := s[..n + 1];
      forall k | 0 <= k < |dropped| ensures IsJsWhitespace(dropped[k]) {
        if k > 0 {
          assert dropped[k] == t[..n][k - 1];
        }
      }
    }
  }

  /** What TrimEnd drops is white space. */
  lemma {:induction false} TrimEndDropsWhitespace(s: string)
    ensures AllWhitespace(s[|TrimEnd(s)|..])
  {
    if s != [] && IsJsWhitespace(s[|s| - 1]) {
      var t := s[..|s| - 1];
      TrimEndDropsWhitespace(t);
      var m := |TrimEnd(t)|;
      var dropped := s[m..];
      forall k | 0 <= k < |dropped| ensures IsJsWhitespace(dropped[k]) {
        if k < |dropped| - 1 {
          assert dropped[k] == t[m..][k];
        }
      }
    }
  }

  /** `Trim(s)` is the slice of `s` that starts after the leading white
      space and stops before the trailing white space. */
  lemma TrimIsSlice(s: string)
    ensures |s| - |TrimStart(s)| + |Trim(s)| <= |s|
    ensures Trim(s) == s[|s| - |TrimStart(s)|..|s| - |TrimStart(s)| + |Trim(s)|]
  {
    var t := TrimStart(s);
    PrefixOfSuffix(s, t, TrimEnd(t), |s| - |t|);
  }

  /** A prefix of a suffix of `s` is a slice of `s`. */
  lemma PrefixOfSuffix<T>(s: seq<T>, t: seq<T>, r: seq<T>, i: nat)
    requires i <= |s| && t == s[i..]
    requires |r| <= |t| && r == t[..|r|]
    ensures i + |r| <= |s| && r == s[i..i + |r|]
  {
  }

  /** What trimming drops on either side is white space. */
  lemma {:induction false} TrimDropsWhitespace(s: string)
    ensures |s| - |TrimStart(s)| + |Trim(s)| <= |s|
    ensures AllWhitespace(s[..|s| - |TrimStart(s)|])
    ensures AllWhitespace(s[|s| - |TrimStart(s)| + |Trim(s)|..])
  {
    var t, r := TrimStart(s), Trim(s);
    var i := |s| - |t|;
    TrimStartDropsWhitespace(s);
    assert AllWhitespace(s[..i]);
    TrimEndDropsWhitespace(t);
    assert AllWhitespace(t[|r|..]);
    WhitespaceAround(s, t, r, i);
  }

  /** If `r` is a prefix of the suffix `t` of `s` that starts at `i`, white
      space before `i` and after `r` in `t` is white space around the slice
      `r` of `s`. */
  lemma WhitespaceAround(s: string, t: string, r: string, i: nat)
    requires i <= |s| && t == s[i..] && |r| <= |t|
    requires AllWhitespace(s[..i]) && AllWhitespace(t[|r|..])
    ensures i + |r| <= |s| && AllWhitespace(s[..i]) && AllWhitespace(s[i + |r|..])
  {
    var after := s[i + |r|..];
    forall k | 0 <= k < |after| ensures IsJsWhitespace(after[k]) {
      assert after[k] == t[|r|..][k];
    }
  }

  /** A trimmed string is empty exactly when the input is all white space. */
  lemma TrimEmptyIff(s: string)
    ensures Trim(s) == [] <==> AllWhitespace(s)
  {
    var t := TrimStart(s);
    var i := |s| - |t|;
    if Trim(s) == [] {
      TrimStartDropsWhitespace(s);
      TrimEndDropsWhitespace(t);
      assert t[|TrimEnd(t)|..] == t;
      assert s[..i] == s;
    }
    assert t != [] ==> t[0] == s[i];
  }

  // ---------------------------------------------------------------------
  // String.prototype.split with a one-character separator

  /** `s.split(sep)`: the maximal separator-free pieces, in order; never
      empty (the empty string splits into one empty piece). */
  function Split(s: string, sep: char): (r: seq<string>)
    ensures |r| >= 1
  {
    if s == [] then [""]
    else
      var rest := Split(s[1..], sep);
      if s[0] == sep then [""] + rest
      else [[s[0]] + rest[0]] + rest[1..]
  }

  /** No piece of a split contains the separator. */
  lemma {:induction false} SplitPiecesLackSep(s: string, sep: char)
    ensures forall i :: 0 <= i < |Split(s, sep)| ==> sep !in Split(s, sep)[i]
  {
    if s != [] {
      SplitPiecesLackSep(s[1..], sep);
      var rest := Split(s[1..], sep);
      if s[0] != sep {
        assert sep !in [s[0]] + rest[0];
      }
    }
  }

  /** `parts.join(sep)`. */
  function Join(parts: seq<string>, sep: char): string
    requires |parts| >= 1
  {
    if |parts| == 1 then parts[0]
    else parts[0] + [sep] + Join(parts[1..], sep)
  }

  /** Splitting and joining back gives the original string. */
  lemma {:induction false} JoinSplit(s: string, sep: char)
    ensures Join(Split(s, sep), sep) == s
  {
    if s != [] {
      JoinSplit(s[1..], sep);
      var rest := Split(s[1..], sep);
      if s[0] == sep {
        assert [""] + rest == [""] + rest;
        assert ([""] + rest)[1..] == rest;
      } else {
        var parts := [[s[0]] + rest[0]] + rest[1..];
        if |rest| == 1 {
          assert Join(parts, sep) == [s[0]] + rest[0];
        } else {
          assert parts[1..] == rest[1..];
          assert Join(rest, sep) == rest[0] + [sep] + Join(rest[1..], sep);
        }
        assert s == [s[0]] + s[1..];
      }
    }
  }

  /** A string without the separator is one piece. */
  lemma {:induction false} SplitNoSep(s: string, sep: char)
    requires sep !in s
    ensures Split(s, sep) == [s]
  {
    if s != [] {
      assert sep !in s[1..];
      SplitNoSep(s[1..], sep);
      assert s == [s[0]] + s[1..];
    }
  }

  /** The split has more than one piece exactly when the separator occurs. */
  lemma SplitIsSingleIff(s: string, sep: char)
    ensures |Split(s, sep)| == 1 <==> sep !in s
  {
    if sep !in s {
      SplitNoSep(s, sep);
    } else {
      JoinSplit(s, sep);
      SplitPiecesLackSep(s, sep);
    }
  }

  /** One step of the split: a leading separator starts a new piece, any
      other character joins the first piece. */
  lemma SplitCons(c: char, t: string, sep: char)
    ensures Split([c] + t, sep) == if c == sep then [""] + Split(t, sep) else [[c] + Split(t, sep)[0]] + Split(t, sep)[1..]
  {
    assert ([c] + t)[1..] == t;
  }

  lemma AppendAssoc<T>(x: seq<T>, y: seq<T>, z: seq<T>)
    ensures x + (y + z) == (x + y) + z
  {
  }

  lemma AppendHeadTail<T>(t: seq<T>, r: seq<T>)
    requires |t| >= 1
    ensures (t + r)[0] == t[0] && (t + r)[1..] == t[1..] + r
  {
  }

  /** The inductive step of SplitAt: from the split of `u` to the split
      of `[c] + u`. */
  lemma SplitAtStep(c: char, u: string, b: string, sep: char)
    requires Split(u + [sep] + b, sep) == Split(u, sep) + Split(b, sep)
    ensures Split([c] + (u + [sep] + b), sep) == Split([c] + u, sep) + Split(b, sep)
  {
    SplitCons(c, u + [sep] + b, sep);
    SplitCons(c, u, sep);
    var tail, right := Split(u, sep), Split(b, sep);
    if c == sep {
      AppendAssoc([""], tail, right);
    } else {
      AppendHeadTail(tail, right);
      AppendAssoc([[c] + tail[0]], tail[1..], right);
    }
  }

  /** A separator between `a` and `b` splits them apart. */
  lemma {:induction false} SplitAt(a: string, b: string, sep: char)
    ensures Split(a + [sep] + b, sep) == Split(a, sep) + Split(b, sep)
  {
    if a == [] {
      assert a + [sep] + b == [sep] + b;
      SplitCons(sep, b, sep);
    } else {
      var c, u := a[0], a[1..];
      SplitAt(u, b, sep);
      SplitAtStep(c, u, b, sep);
      assert a == [c] + u;
      assert a + [sep] + b == [c] + (u + [sep] + b);
    }
  }

  // ---------------------------------------------------------------------
  // String.prototype.includes, and the ASCII part of the case maps

  predicate OccursAt(s: string, sub: string, i: int)
  {
    0 <= i && i + |sub| <= |s| && s[i..i + |sub|] == sub
  }

  /** `s.includes(sub)`. */
  predicate Contains(s: string, sub: string)
  {
    exists i | 0 <= i <= |s| - |sub| :: OccursAt(s, sub, i)
  }

  function LowerChar(c: char): char
  {
    if 'A' <= c <= 'Z' then (c as int + 32) as char else c
  }

  function UpperChar(c: char): char
  {
    if 'a' <= c <= 'z' then (c as int - 32) as char else c
  }

  function ToLower(s: string): (r: string)
    ensures |r| == |s|
  {
    seq(|s|, i requires 0 <= i < |s| => LowerChar(s[i]))
  }

  function ToUpper(s: string): (r: string)
    ensures |r| == |s|
  {
    seq(|s|, i requires 0 <= i < |s| => UpperChar(s[i]))
  }

  /** Lower-casing forgets the case the string was written in. */
  lemma LowerIgnoresCase(s: string)
    ensures ToLower(ToLower(s)) == ToLower(s)
    ensures ToLower(ToUpper(s)) == ToLower(s)
  {
    assert forall i :: 0 <= i < |s| ==> LowerChar(UpperChar(s[i])) == LowerChar(s[i]);
  }
}
