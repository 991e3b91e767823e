/** Control character filtering of user supplied text (src/common/string-utils.cpp). */
module TextFilter {

  /** A byte as the signed `char` the comparison with 0x20 sees. */
  function CharValue(c: char): int {
    if c as int < 128 then c as int else c as int - 256
  }

  predicate Dropped(c: char, filterNl: bool) {
    || (CharValue(c) < 0x20 && c != '\n')
    || (filterNl && c == '\n')
  }

  function StripNewlines(s: string): string {
    if |s| > 0 && s[|s| - 1] == '\n' then StripNewlines(s[..|s| - 1]) else s
  }

  function Kept(s: string, filterNl: bool): string {
    if s == [] then []
    else
      var init := Kept(s[..|s| - 1], filterNl);
      if Dropped(s[|s| - 1], filterNl) then init else init + [s[|s| - 1]]
  }

  function FilterCtrlChars(s: string, filterNl: bool): string {
    Kept(StripNewlines(s), filterNl)
  }

  /** The two in-place passes of `filter_ctrl_chars`: cut the trailing newlines, then compact. */
  method Filter(input: string, filterNl: bool) returns (output: string)
    ensures output == FilterCtrlChars(input, filterNl)
  {
    var end := |input|;
    assert input[..end] == input;
    while end > 0 && input[end - 1] == '\n'
      invariant 0 <= end <= |input|
      invariant StripNewlines(input) == StripNewlines(input[..end])
    {
      assert input[..end][..end - 1] == input[..end - 1];
      end := end - 1;
    }
    var buffer := input[..end];
    assert StripNewlines(input) == buffer;
    var write := 0;
    for read := 0 to |buffer|
      invariant write <= read && |buffer| == end
      invariant buffer[..write] == Kept(input[..read], filterNl)
      invariant forall k :: read <= k < end ==> buffer[k] == input[k]
    {
      assert input[..read + 1][..read] == input[..read];
      if !Dropped(buffer[read], filterNl) {
        buffer := buffer[write := buffer[read]];
        write := write + 1;
      }
    }
    output := buffer[..write];
  }

  lemma {:induction false} KeptElements(s: string, filterNl: bool)
    ensures forall c :: c in Kept(s, filterNl) <==> c in s && !Dropped(c, filterNl)
  {
    if s != [] {
      KeptElements(s[..|s| - 1], filterNl);
      assert s == s[..|s| - 1] + [s[|s| - 1]];
    }
  }

  lemma {:induction false} KeptOfClean(s: string, filterNl: bool)
    requires forall c :: c in s ==> !Dropped(c, filterNl)
    ensures Kept(s, filterNl) == s
  {
    if s != [] {
      assert s == s[..|s| - 1] + [s[|s| - 1]];
      KeptOfClean(s[..|s| - 1], filterNl);
    }
  }

  /** With newline filtering the first pass is redundant: only printable characters survive. */
  lemma {:induction false} StripIsRedundant(s: string)
    ensures Kept(StripNewlines(s), true) == Kept(s, true)
  {
    if |s| > 0 && s[|s| - 1] == '\n' {
      StripIsRedundant(s[..|s| - 1]);
    }
  }

  /** Filtering with `filter_nl` is a projection onto the texts without any control character. */
  lemma FilterIsProjection(s: string)
    ensures forall c :: c in FilterCtrlChars(s, true) <==> c in s && !Dropped(c, true)
    ensures FilterCtrlChars(FilterCtrlChars(s, true), true) == FilterCtrlChars(s, true)
    ensures (forall c :: c in s ==> !Dropped(c, true)) ==> FilterCtrlChars(s, true) == s
  {
    var r := FilterCtrlChars(s, true);
    StripIsRedundant(s);
    KeptElements(s, true);
    StripIsRedundant(r);
    KeptOfClean(r, true);
    if forall c :: c in s ==> !Dropped(c, true) {
      KeptOfClean(s, true);
    }
  }

  /** Of the bytes a text can have exactly those from 0x20 to 0x7f stay. */
  lemma PrintableStays(c: char)
    requires c as int < 256
    ensures !Dropped(c, true) <==> 0x20 <= c as int < 0x80
    ensures !Dropped(c, false) <==> c == '\n' || 0x20 <= c as int < 0x80
  {
  }

  lemma {:induction false} KeptConcat(s: string, t: string, filterNl: bool)
    ensures Kept(s + t, filterNl) == Kept(s, filterNl) + Kept(t, filterNl)
  {
    if t == [] {
      assert s + t == s;
    } else {
      var init := t[..|t| - 1];
      assert (s + t)[..|s + t| - 1] == s + init && (s + t)[|s + t| - 1] == t[|t| - 1];
      KeptConcat(s, init, filterNl);
    }
  }

  /** What is left of two texts is left in their order, nothing more and nothing less. */
  lemma FilterIsHomomorphism(s: string, t: string)
    ensures FilterCtrlChars(s + t, true) == FilterCtrlChars(s, true) + FilterCtrlChars(t, true)
  {
    StripIsRedundant(s);
    StripIsRedundant(t);
    StripIsRedundant(s + t);
    KeptConcat(s, t, true);
  }

  /** Nothing is left exactly of a text of control characters and newlines. */
  lemma NothingLeft(s: string)
    ensures FilterCtrlChars(s, true) == [] <==> forall c :: c in s ==> Dropped(c, true)
  {
    FilterIsProjection(s);
    var r := FilterCtrlChars(s, true);
    assert r != [] ==> r[0] in r;
  }

  /** A newline whose only followers, up to the trailing newlines, are control characters. */
  ghost predicate HidesNewline(s: string) {
    var t := StripNewlines(s);
    exists i :: 0 <= i < |t| && t[i] == '\n' && forall j :: i < j < |t| ==> Dropped(t[j], false)
  }

  lemma {:induction false} KeptEndsInNewline(t: string)
    ensures (|Kept(t, false)| > 0 && Kept(t, false)[|Kept(t, false)| - 1] == '\n')
       <==> exists i :: 0 <= i < |t| && t[i] == '\n' && forall j :: i < j < |t| ==> Dropped(t[j], false)
  {
    if t != [] {
      var init, last := t[..|t| - 1], t[|t| - 1];
      KeptEndsInNewline(init);
      if Dropped(last, false) {
        if i :| 0 <= i < |t| && t[i] == '\n' && forall j :: i < j < |t| ==> Dropped(t[j], false) {
          assert init[i] == '\n' && forall j :: i < j < |init| ==> Dropped(init[j], false);
        }
        if i :| 0 <= i < |init| && init[i] == '\n' && forall j :: i < j < |init| ==> Dropped(init[j], false) {
          assert t[i] == '\n' && forall j :: i < j < |t| ==> Dropped(t[j], false);
        }
      } else if last == '\n' {
        assert t[|t| - 1] == '\n';
      }
    }
  }

  /** Without `filter_nl` a second pass changes nothing exactly when no newline was hidden. */
  lemma FilterKeepingNewlinesIdempotent(s: string)
    ensures FilterCtrlChars(FilterCtrlChars(s, false), false) == FilterCtrlChars(s, false) <==> !HidesNewline(s)
  {
    var r := FilterCtrlChars(s, false);
    KeptElements(StripNewlines(s), false);
    KeptEndsInNewline(StripNewlines(s));
    if HidesNewline(s) {
      StripShortens(r);
      KeptShortens(StripNewlines(r), false);
    } else {
      KeptOfClean(r, false);
    }
  }

  lemma {:induction false} StripShortens(s: string)
    ensures |StripNewlines(s)| <= |s|
    ensures |s| > 0 && s[|s| - 1] == '\n' ==> |StripNewlines(s)| < |s|
  {
    if |s| > 0 && s[|s| - 1] == '\n' {
      StripShortens(s[..|s| - 1]);
    }
  }

  lemma {:induction false} KeptShortens(s: string, filterNl: bool)
    ensures |Kept(s, filterNl)| <= |s|
  {
    if s != [] {
      KeptShortens(s[..|s| - 1], filterNl);
    }
  }

  /** One more character at the end, which is no newline. */
  lemma FilterSnoc(s: string, c: char, filterNl: bool)
    requires c != '\n'
    ensures FilterCtrlChars(s + [c], filterNl) ==
            if Dropped(c, filterNl) then Kept(s, filterNl) else Kept(s, filterNl) + [c]
  {
    assert (s + [c])[..|s|] == s;
  }

  lemma KeptOne(c: char)
    requires !Dropped(c, false)
    ensures Kept([c], false) == [c]
  {
    assert [c][..0] == [];
  }

  /** For any printable character, texts on which filtering twice differs from filtering once. */
  lemma FilterKeepingNewlinesTwice(c: char)
    requires !Dropped(c, false) && c != '\n'
    ensures FilterCtrlChars([c] + ['\n'] + ['\t'], false) == [c] + ['\n']
    ensures FilterCtrlChars([c] + ['\n'], false) == [c]
  {
    var line := [c] + ['\n'];
    FilterSnoc(line, '\t', false);
    KeptOne(c);
    assert line[..1] == [c];
    assert StripNewlines(line) == StripNewlines([c]) == [c];
  }
}
