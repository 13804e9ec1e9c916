/** The replacement templates of `re.sub`: escapes and references to groups.
    The pattern has two groups, the `anchor` and the `content` after it. */
module Template {
  import opened Text
  import opened Decimal

  predicate IsLetter(c: char) {
    'a' <= c <= 'z' || 'A' <= c <= 'Z'
  }

  predicate IsOctal(c: char) {
    '0' <= c <= '7'
  }

  /** A character that leaves a backslash before it alone. */
  predicate IsKept(c: char) {
    !IsLetter(c) && !IsDigit(c) && c != '\\'
  }

  /** What an escape is replaced by, and how long the escape is. */
  datatype Piece = Piece(text: string, length: nat)

  function NumberedGroup(n: nat, length: nat, anchor: string, content: string): Option<Piece> {
    if n == 0 then Some(Piece(anchor + content, length))
    else if n == 1 then Some(Piece(anchor, length))
    else if n == 2 then Some(Piece(content, length))
    else None
  }

  /** `\g<name>`; `t` is what follows the letter. */
  function Reference(t: string, anchor: string, content: string): Option<Piece> {
    var end := IndexOf(t, '>');
    if !StartsWith(t, "<") || end == |t| then None
    else
      var name := t[1..end];
      if IsNumeral(name) then NumberedGroup(ToNat(name), end + 3, anchor, content)
      else if name == "anchor" then Some(Piece(anchor, end + 3))
      else if name == "content" then Some(Piece(content, end + 3))
      else None
  }

  function OctalValue(c: char): nat
    requires IsOctal(c)
    ensures OctalValue(c) < 8
  {
    (c - '0') as nat
  }

  /** `\0` with up to two more octal digits. */
  function Zero(t: string): (p: Piece)
    requires |t| >= 2
    ensures 2 <= p.length <= |t| && |p.text| == 1
  {
    if |t| == 2 || !IsOctal(t[2]) then Piece([0 as char], 2)
    else if |t| == 3 || !IsOctal(t[3]) then Piece([OctalValue(t[2]) as char], 3)
    else Piece([(8 * OctalValue(t[2]) + OctalValue(t[3])) as char], 4)
  }

  /** Another digit: three octal digits are a character, one or two digits a
      group. */
  function Numbered(t: string, anchor: string, content: string): Option<Piece>
    requires |t| >= 2 && IsDigit(t[1])
  {
    if |t| == 2 || !IsDigit(t[2]) then NumberedGroup(ToNat(t[1..2]), 2, anchor, content)
    else if IsOctal(t[1]) && IsOctal(t[2]) && |t| > 3 && IsOctal(t[3]) then
      var value := 64 * OctalValue(t[1]) + 8 * OctalValue(t[2]) + OctalValue(t[3]);
      if value > 255 then None else Some(Piece([value as char], 4))
    else NumberedGroup(ToNat(t[1..3]), 3, anchor, content)
  }

  /** What the letters that mean a character stand for. */
  function Control(c: char): Option<char> {
    if c == 'a' then Some('\U{7}')
    else if c == 'b' then Some('\U{8}')
    else if c == 't' then Some('\t')
    else if c == 'n' then Some('\n')
    else if c == 'v' then Some('\U{B}')
    else if c == 'f' then Some('\U{C}')
    else if c == 'r' then Some('\r')
    else if c == '\\' then Some('\\')
    else None
  }

  /** The escape that `t` starts with; None is the error it raises. */
  function Escape(t: string, anchor: string, content: string): (p: Option<Piece>)
    requires StartsWith(t, "\\")
    ensures p.Some? ==> 2 <= p.value.length <= |t|
  {
    if |t| == 1 then None
    else if t[1] == 'g' then Reference(t[2..], anchor, content)
    else if t[1] == '0' then Some(Zero(t))
    else if IsDigit(t[1]) then Numbered(t, anchor, content)
    else if Control(t[1]).Some? then Some(Piece([Control(t[1]).value], 2))
    else if IsLetter(t[1]) then None
    else Some(Piece(t[..2], 2))
  }

  function Prefixed(s: string, t: Option<string>): Option<string> {
    match t case None => None case Some(text) => Some(s + text)
  }

  /** What a template expands to; None is an error. */
  function Expand(t: string, anchor: string, content: string): Option<string>
    decreases |t|
  {
    if t == "" then Some("")
    else if !StartsWith(t, "\\") then Prefixed([t[0]], Expand(t[1..], anchor, content))
    else match Escape(t, anchor, content)
      case None => None
      case Some(p) => Prefixed(p.text, Expand(t[p.length..], anchor, content))
  }

  /** No backslash is followed by a letter, a digit or a backslash. */
  predicate NoEscape(t: string) {
    forall i :: 0 <= i < |t| - 1 && t[i] == '\\' ==> IsKept(t[i + 1])
  }

  /** Nor is the last character one. */
  predicate IsPlain(t: string) {
    NoEscape(t) && !EndsWith(t, "\\")
  }

  lemma NoEscapeConcat(a: string, b: string)
    requires NoEscape(a) && NoEscape(b) && (b == "" || a == "" || a[|a| - 1] != '\\' || IsKept(b[0]))
    ensures NoEscape(a + b)
  {
    var s := a + b;
    forall i | 0 <= i < |s| - 1 && s[i] == '\\' ensures IsKept(s[i + 1]) {
      if i >= |a| { assert b[i - |a|] == '\\' && b[i - |a| + 1] == s[i + 1]; }
    }
  }

  lemma PrefixedTwice(a: string, b: string, t: Option<string>)
    ensures Prefixed(a, Prefixed(b, t)) == Prefixed(a + b, t)
  {
    if t.Some? { assert a + (b + t.value) == a + b + t.value; }
  }

  lemma PrefixedNothing(t: Option<string>)
    ensures Prefixed("", t) == t
  {
    if t.Some? { assert "" + t.value == t.value; }
  }

  /** The first character, with the one after it when it is a backslash. */
  function FirstPlain(s: string): nat {
    if StartsWith(s, "\\") then 2 else 1
  }

  lemma PlainTail(s: string)
    requires IsPlain(s) && s != ""
    ensures FirstPlain(s) <= |s| && IsPlain(s[FirstPlain(s)..])
    ensures StartsWith(s, "\\") ==> IsKept(s[1])
  {
    var n := FirstPlain(s);
    if |s| == 1 { assert s[0..] == s; }
    assert forall i :: 0 <= i < |s[n..]| ==> s[n..][i] == s[n + i];
    assert |s| > n ==> s[n..][|s| - n - 1..] == s[|s| - 1..];
  }

  lemma PlainStep(s: string, anchor: string, content: string)
    requires FirstPlain(s) <= |s| && s != "" && (StartsWith(s, "\\") ==> IsKept(s[1]))
    ensures Expand(s, anchor, content) == Prefixed(s[..FirstPlain(s)], Expand(s[FirstPlain(s)..], anchor, content))
  {
    if StartsWith(s, "\\") {
      assert Escape(s, anchor, content) == Some(Piece(s[..2], 2));
    } else {
      assert s[..1] == [s[0]];
    }
  }

  /** A plain start expands to itself. */
  lemma {:induction false} PlainStart(s: string, t: string, anchor: string, content: string)
    requires IsPlain(s)
    ensures Expand(s + t, anchor, content) == Prefixed(s, Expand(t, anchor, content))
    decreases |s|
  {
    if s == "" {
      assert s + t == t;
      PrefixedNothing(Expand(t, anchor, content));
    } else {
      PlainTail(s);
      var n := FirstPlain(s);
      hide Expand, IsPlain, IsKept, Prefixed;
      assert s[0] == (s + t)[0] && FirstPlain(s + t) == n && (n == 2 ==> (s + t)[1] == s[1]);
      assert (s + t)[n..] == s[n..] + t && (s + t)[..n] == s[..n];
      PlainStart(s[n..], t, anchor, content);
      PlainStep(s + t, anchor, content);
      PrefixedTwice(s[..n], s[n..], Expand(t, anchor, content));
      assert s[..n] + s[n..] == s;
    }
  }

  /** With empty groups an escape shrinks, unless it is left alone. */
  lemma EscapeShrinks(t: string)
    requires StartsWith(t, "\\") && Escape(t, "", "").Some?
    ensures var p := Escape(t, "", "").value;
            |p.text| < p.length || (p == Piece(t[..2], 2) && IsKept(t[1]))
  {
  }

  /** A plain rest behind a character, or behind a backslash left alone. */
  lemma PlainAll(t: string, n: nat)
    requires 1 <= n <= 2 && n <= |t| && IsPlain(t[n..])
    requires if n == 1 then t[0] != '\\' else IsKept(t[1])
    ensures IsPlain(t)
  {
    forall i | 0 <= i < |t| - 1 && t[i] == '\\' ensures IsKept(t[i + 1]) {
      if i >= n { assert t[n..][i - n] == t[i] && t[n..][i - n + 1] == t[i + 1]; }
    }
    if |t| > n { assert t[n..][|t| - n - 1..] == t[|t| - 1..]; }
    assert |t| == n ==> t[|t| - 1..] == [t[n - 1]];
  }

  lemma {:induction false} ExpandShrinks(t: string)
    ensures var r := Expand(t, "", ""); r.Some? ==> |r.value| <= |t| && (|r.value| == |t| ==> IsPlain(t))
    decreases |t|
  {
    var r := Expand(t, "", "");
    if t != "" && r.Some? {
      var n := 1;
      if StartsWith(t, "\\") {
        EscapeShrinks(t);
        n := Escape(t, "", "").value.length;
      }
      ExpandShrinks(t[n..]);
      hide IsPlain, IsKept, Escape;
      if |r.value| == |t| { PlainAll(t, n); }
    }
  }

  /** A template means itself, whatever the groups matched, exactly when it is
      plain. */
  lemma LiteralIff(t: string)
    ensures IsPlain(t) <==> forall anchor, content :: Expand(t, anchor, content) == Some(t)
  {
    hide IsPlain, Expand;
    if IsPlain(t) {
      forall anchor, content ensures Expand(t, anchor, content) == Some(t) { PlainIsItself(t, anchor, content); }
    } else {
      ExpandShrinks(t);
      assert Expand(t, "", "") != Some(t);
    }
  }

  lemma PlainIsItself(t: string, anchor: string, content: string)
    requires IsPlain(t)
    ensures Expand(t, anchor, content) == Some(t)
  {
    PlainStart(t, "", anchor, content);
    assert t + "" == t;
  }

  /** A letter that names no escape raises an error, as in `\d`. */
  lemma BadEscapeRaises(s: string, c: char, t: string, anchor: string, content: string)
    requires IsPlain(s) && IsLetter(c) && c != 'g' && Control(c).None?
    ensures Expand(s + ['\\', c] + t, anchor, content) == None
  {
    var rest := ['\\', c] + t;
    assert s + ['\\', c] + t == s + rest;
    assert rest[0] == '\\' && rest[1] == c && StartsWith(rest, "\\");
    PlainStart(s, rest, anchor, content);
  }

  /** An escaped letter that has a meaning loses its backslash. */
  lemma ControlIsReplaced(s: string, c: char, t: string, anchor: string, content: string)
    requires IsPlain(s) && IsPlain(t) && Control(c).Some?
    ensures Expand(s + ['\\', c] + t, anchor, content) == Some(s + [Control(c).value] + t)
  {
    var rest := ['\\', c] + t;
    assert s + ['\\', c] + t == s + rest;
    assert rest[0] == '\\' && rest[1] == c && rest[2..] == t && StartsWith(rest, "\\");
    PlainStart(s, rest, anchor, content);
    PlainIsItself(t, anchor, content);
    assert s + ([Control(c).value] + t) == s + [Control(c).value] + t;
  }

  /** The letters that stand for a character. */
  lemma ControlsAre(c: char)
    ensures Control(c).Some? <==> c in "abtnvfr\\"
    ensures Control('a') == Some('\U{7}') && Control('b') == Some('\U{8}') && Control('t') == Some('\t')
    ensures Control('n') == Some('\n') && Control('v') == Some('\U{B}') && Control('f') == Some('\U{C}')
    ensures Control('r') == Some('\r') && Control('\\') == Some('\\')
  {
    var s := "abtnvfr\\";
    assert s[0] == 'a' && s[1] == 'b' && s[2] == 't' && s[3] == 'n' && s[4] == 'v' && s[5] == 'f' && s[6] == 'r';
    assert s[7] == '\\' && |s| == 8;
  }

  lemma EscapeExpands(s: string, escape: string, t: string, anchor: string, content: string)
    requires IsPlain(s) && IsPlain(t) && StartsWith(escape, "\\")
    ensures match Escape(escape + t, anchor, content)
            case None => Expand(s + escape + t, anchor, content) == None
            case Some(p) => p.length == |escape| ==> Expand(s + escape + t, anchor, content) == Some(s + p.text + t)
  {
    var rest := escape + t;
    assert s + escape + t == s + rest && StartsWith(rest, "\\") && rest[|escape|..] == t;
    hide Escape, IsPlain;
    PlainStart(s, rest, anchor, content);
    PlainIsItself(t, anchor, content);
    var p := Escape(rest, anchor, content);
    if p.Some? && p.value.length == |escape| { assert s + (p.value.text + t) == s + p.value.text + t; }
  }

  /** The number of a group stands for what it matched; the pattern has two. */
  lemma GroupIsReplaced(s: string, d: char, t: string, anchor: string, content: string)
    requires IsPlain(s) && IsPlain(t) && IsDigit(d) && d != '0' && (t == "" || !IsDigit(t[0]))
    ensures Expand(s + ['\\', d] + t, anchor, content)
            == if d == '1' then Some(s + anchor + t) else if d == '2' then Some(s + content + t) else None
  {
    var rest := ['\\', d] + t;
    assert rest[0] == '\\' && rest[1] == d && rest[1..2] == [d] && (|rest| > 2 ==> rest[2] == t[0]);
    assert [d][..0] == "" && ToNat([d]) == DigitValue(d);
    EscapeExpands(s, ['\\', d], t, anchor, content);
    hide IsPlain, Expand, ToNat;
    assert Escape(rest, anchor, content) == NumberedGroup(DigitValue(d), 2, anchor, content);
  }

  /** So does its name. */
  lemma NameIsReplaced(s: string, name: string, t: string, anchor: string, content: string)
    requires IsPlain(s) && IsPlain(t) && '>' !in name && !IsNumeral(name)
    ensures Expand(s + ("\\g<" + name + ">") + t, anchor, content)
            == if name == "anchor" then Some(s + anchor + t)
               else if name == "content" then Some(s + content + t)
               else None
  {
    var escape := "\\g<" + name + ">";
    var rest := escape + t;
    var tail := rest[2..];
    assert rest[0] == '\\' && rest[1] == 'g' && tail == "<" + name + ">" + t;
    IndexOfIs(tail, '>', |name| + 1);
    assert tail[1..|name| + 1] == name;
    EscapeExpands(s, escape, t, anchor, content);
    hide IsPlain, Expand;
  }

  /** Three octal digits are a character's code, up to 255. */
  lemma OctalIsReplaced(s: string, a: char, b: char, c: char, t: string, anchor: string, content: string)
    requires IsPlain(s) && IsPlain(t) && '0' <= a <= '7' && '0' <= b <= '7' && '0' <= c <= '7'
    ensures var value := 64 * (a as int - '0' as int) + 8 * (b as int - '0' as int) + (c as int - '0' as int);
            Expand(s + ['\\', a, b, c] + t, anchor, content)
            == if value > 255 then None else Some(s + [value as char] + t)
  {
    var escape := ['\\', a, b, c];
    var rest := escape + t;
    assert rest[0] == '\\' && rest[1] == a && rest[2] == b && rest[3] == c;
    EscapeExpands(s, escape, t, anchor, content);
    hide IsPlain, Expand;
  }

  /** Behind a zero there may be fewer; alone it is the null character. */
  lemma ZeroIsReplaced(s: string, b: char, t: string, anchor: string, content: string)
    requires IsPlain(s) && IsPlain(t) && (t == "" || !('0' <= t[0] <= '7')) && '0' <= b <= '7'
    ensures Expand(s + ['\\', '0'] + t, anchor, content) == Some(s + [0 as char] + t)
    ensures Expand(s + ['\\', '0', b] + t, anchor, content) == Some(s + [(b as int - '0' as int) as char] + t)
  {
    var (zero, one) := (['\\', '0'] + t, ['\\', '0', b] + t);
    assert zero[0] == '\\' && zero[1] == '0' && (|zero| > 2 ==> zero[2] == t[0]);
    assert one[0] == '\\' && one[1] == '0' && one[2] == b && (|one| > 3 ==> one[3] == t[0]);
    EscapeExpands(s, ['\\', '0'], t, anchor, content);
    EscapeExpands(s, ['\\', '0', b], t, anchor, content);
    hide IsPlain, Expand;
  }

  const HEAD: string := "\\g<anchor>\\n"

  lemma AnchorReference(t: string, anchor: string, content: string)
    requires StartsWith(t, "<anchor>")
    ensures Reference(t, anchor, content) == Some(Piece(anchor, 10))
  {
    assert forall i :: 0 <= i < 8 ==> t[i] == "<anchor>"[i];
    IndexOfIs(t, '>', 7);
    assert t[1..7] == "anchor";
    assert !IsDigit("anchor"[0]);
  }

  /** The template the merge passes starts with the anchor and a newline. */
  lemma HeadExpands(t: string, anchor: string, content: string)
    ensures Expand(HEAD + t, anchor, content) == Prefixed(anchor + "\n", Expand(t, anchor, content))
  {
    var whole := HEAD + t;
    var (name, rest) := (whole[2..], whole[10..]);
    assert name[..8] == "<anchor>" && rest[..2] == "\\n" && rest[2..] == t;
    AnchorReference(name, anchor, content);
    assert whole[0] == '\\' && whole[1] == 'g' && rest[0] == '\\' && rest[1] == 'n';
    assert Expand(rest, anchor, content) == Prefixed("\n", Expand(t, anchor, content));
    hide Reference, Prefixed;
    assert Escape(whole, anchor, content) == Some(Piece(anchor, 10));
    PrefixedTwice(anchor, "\n", Expand(t, anchor, content));
  }
}
