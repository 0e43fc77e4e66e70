/** The dashboard header: the signed-in admin's display name, role and
    initials, the profile menu, and logging out. */
module AdminHeader {
  import opened Js

  /** `s.split(' ')`: the pieces between single spaces, empty pieces
      included; the empty string splits into one empty piece. */
  function Split(s: string): (r: seq<string>)
    ensures |r| >= 1
    ensures forall k :: 0 <= k < |r| ==> ' ' !in r[k]
  {
    if s == [] then [[]]
    else
      var rest := Split(s[1..]);
      if s[0] == ' ' then [[]] + rest
      else [[s[0]] + rest[0]] + rest[1..]
  }

  /** The pieces put back together with a single space between each two. */
  function Join(pieces: seq<string>): string
    requires |pieces| >= 1
  {
    if |pieces| == 1 then pieces[0] else pieces[0] + " " + Join(pieces[1..])
  }

  /** The pieces of `split(' ')` are exactly `s` cut at every space. */
  lemma {:induction false} JoinSplit(s: string)
    ensures Join(Split(s)) == s
  {
    if s != [] {
      var rest := Split(s[1..]);
      JoinSplit(s[1..]);
      if s[0] == ' ' {
        assert Split(s) == [[]] + rest;
        assert Split(s)[1..] == rest;
        assert [] + " " + Join(rest) == [s[0]] + s[1..];
      } else {
        var pieces := Split(s);
        assert pieces == [[s[0]] + rest[0]] + rest[1..];
        assert pieces[1..] == rest[1..];
        if |rest| == 1 {
          assert Join(pieces) == [s[0]] + rest[0];
        } else {
          assert Join(pieces) == [s[0]] + rest[0] + " " + Join(rest[1..]);
          assert Join(rest) == rest[0] + " " + Join(rest[1..]);
        }
        assert [s[0]] + s[1..] == s;
      }
    }
  }

  /** `.map((n) => n[0]).join('')`: each piece's first character; an empty
      piece gives `undefined`, which `join` writes as nothing. */
  function FirstChars(words: seq<string>): (r: string)
    ensures |r| <= |words|
  {
    if words == [] then []
    else (if words[0] == [] then [] else [words[0][0]]) + FirstChars(words[1..])
  }

  /** `.slice(0, 2)`. */
  function Take2(s: string): (r: string)
    ensures |r| == if |s| < 2 then |s| else 2
    ensures r == s[..|r|]
  {
    if |s| <= 2 then s else s[..2]
  }

  /** `getInitials`. */
  function Initials(name: string): (r: string)
    ensures |r| <= 2
  {
    Take2(ToUpper(FirstChars(Split(name))))
  }

  // The reference definition: a word starts wherever a character other
  // than a space follows the start of the name or a space.

  ghost predicate IsWordStart(s: string, i: int)
    requires 0 <= i < |s|
  {
    s[i] != ' ' && (i == 0 || s[i - 1] == ' ')
  }

  /** The characters at word starts from position `i` on, in order. */
  ghost function WordStartsFrom(s: string, i: nat): string
    decreases |s| - i
  {
    if i >= |s| then []
    else (if IsWordStart(s, i) then [s[i]] else []) + WordStartsFrom(s, i + 1)
  }

  ghost function WordStarts(s: string): string
  {
    WordStartsFrom(s, 0)
  }

  /** The word-start characters of `s`, when `s` follows a space or the
      start (`atStart`) or the middle of a word. */
  ghost function StartsAfter(s: string, atStart: bool): string
  {
    if s == [] then []
    else (if atStart && s[0] != ' ' then [s[0]] else []) + StartsAfter(s[1..], s[0] == ' ')
  }

  /** The first characters of the split pieces are the word starts; the
      pieces after the first piece give the word starts after the first
      character had it been inside a word. */
  lemma {:induction false} FirstCharsOfSplit(s: string)
    ensures FirstChars(Split(s)) == StartsAfter(s, true)
    ensures FirstChars(Split(s)[1..]) == StartsAfter(s, false)
  {
    if s != [] {
      var t := s[1..];
      FirstCharsOfSplit(t);
      var rest := Split(t);
      if s[0] == ' ' {
        assert Split(s) == [[]] + rest;
        assert Split(s)[1..] == rest;
      } else {
        assert Split(s) == [[s[0]] + rest[0]] + rest[1..];
        assert Split(s)[1..] == rest[1..];
      }
    }
  }

  lemma {:induction false} StartsAfterIsWordStarts(s: string, i: nat)
    requires i <= |s|
    ensures StartsAfter(s[i..], i == 0 || s[i - 1] == ' ') == WordStartsFrom(s, i)
    decreases |s| - i
  {
    if i < |s| {
      StartsAfterIsWordStarts(s, i + 1);
      assert s[i..][1..] == s[i + 1..];
    }
  }

  /** The initials are the upper-cased first characters of the words, in
      order, at most two of them. */
  lemma InitialsAreWordStarts(name: string)
    ensures Initials(name) == Take2(ToUpper(WordStarts(name)))
  {
    FirstCharsOfSplit(name);
    StartsAfterIsWordStarts(name, 0);
    assert name[0..] == name;
  }

  /** A piece without spaces splits off as one word. */
  lemma {:induction false} SplitWord(w: string, rest: string)
    requires ' ' !in w
    ensures Split(w) == [w]
    ensures Split(w + " " + rest) == [w] + Split(rest)
  {
    if w != [] {
      SplitWord(w[1..], rest);
      assert (w + " " + rest)[1..] == w[1..] + " " + rest;
      assert [w[0]] + w[1..] == w;
    } else {
      assert w + " " + rest == [' '] + rest;
    }
  }

  lemma InitialsOfOneWord()
    ensures Initials("Admin") == "A"
  {
    SplitWord("Admin", "");
    assert FirstChars(["Admin"]) == "A";
  }

  lemma InitialsOfTwoWords()
    ensures Initials("jane doe") == "JD"
  {
    SplitWord("jane", "doe");
    SplitWord("doe", "");
    assert "jane" + " " + "doe" == "jane doe";
    assert FirstChars(["jane", "doe"]) == "jd";
    assert ToUpper("jd") == "JD";
  }

  /** A first and a last name without spaces give their two first letters,
      upper-cased. */
  lemma InitialsOfFirstAndLast(first: string, last: string)
    requires first != [] && last != [] && ' ' !in first && ' ' !in last
    ensures Initials(first + " " + last) == [UpperChar(first[0]), UpperChar(last[0])]
  {
    SplitWord(first, last);
    SplitWord(last, "");
    assert FirstChars([last]) == [last[0]];
    assert FirstChars([first, last]) == [first[0], last[0]];
  }

  /** `` `${first || ''} ${last || ''}`.trim() || 'Admin' ``: the joined
      names, trimmed, or `'Admin'` when they are blank; never empty and never
      padded with white space. */
  function FullName(first: Option<string>, last: Option<string>): (r: string)
    ensures r != []
    ensures !IsWhitespace(r[0]) && !IsWhitespace(r[|r| - 1])
    ensures var joined := OrDefault(first, "") + " " + OrDefault(last, "");
      && ((forall i :: 0 <= i < |joined| ==> IsWhitespace(joined[i])) ==> r == "Admin")
      && ((exists i :: 0 <= i < |joined| && !IsWhitespace(joined[i])) ==> r == Trim(joined))
  {
    var joined := OrDefault(first, "") + " " + OrDefault(last, "");
    TrimBlank(joined);
    var t := Trim(joined);
    if t == [] then "Admin" else t
  }

  /** A name with no white space at either end. */
  predicate Trimmed(n: string)
  {
    n != [] && !IsWhitespace(n[0]) && !IsWhitespace(n[|n| - 1])
  }

  /** Both names set and trimmed: they are shown with one space between. */
  lemma FullNameOfBothNames(first: string, last: string)
    requires Trimmed(first) && Trimmed(last)
    ensures FullName(Some(first), Some(last)) == first + " " + last
  {
    var joined := first + " " + last;
    assert OrDefault(Some(first), "") + " " + OrDefault(Some(last), "") == joined;
    assert joined[0] == first[0] && joined[|joined| - 1] == last[|last| - 1];
    assert !IsWhitespace(joined[0]);
    TrimTrimmed(joined);
  }

  /** Only a last name: it is shown alone, whether the first name is absent
      or empty. */
  lemma FullNameOfLastNameOnly(first: Option<string>, last: string)
    requires !Truthy(first) && Trimmed(last)
    ensures FullName(first, Some(last)) == last
  {
    assert OrDefault(first, "") + " " + OrDefault(Some(last), "") == " " + last;
    TrimLeadingSpace(last);
  }

  /** The avatar never goes blank: the displayed name always has an
      initial. */
  lemma FullNameHasInitial(first: Option<string>, last: Option<string>)
    ensures |Initials(FullName(first, last))| >= 1
  {
    var n := FullName(first, last);
    InitialsAreWordStarts(n);
    assert n[0] != ' ';
    assert IsWordStart(n, 0);
    assert WordStarts(n)[0] == n[0];
  }

  /** `admin?.role || 'Administrator'`. */
  function Role(role: Option<string>): (r: string)
    ensures r != []
    ensures Truthy(role) ==> r == role.value
    ensures !Truthy(role) ==> r == "Administrator"
  {
    OrDefault(role, "Administrator")
  }

  /** A call out of the header: to the auth store, the router, or the
      layout's `onMenuToggle` prop. */
  datatype Call = ClearAuth | Navigate(to: string) | MenuToggle

  class Header {
    var isMenuOpen: bool
    var calls: seq<Call>

    constructor ()
      ensures !isMenuOpen && calls == []
    {
      isMenuOpen := false;
      calls := [];
    }

    /** The profile button flips the menu. */
    method ProfileClick()
      modifies this
      ensures isMenuOpen == !old(isMenuOpen) && calls == old(calls)
    {
      isMenuOpen := !isMenuOpen;
    }

    /** The mobile menu button hands over to the layout. */
    method MenuButtonClick()
      modifies this
      ensures isMenuOpen == old(isMenuOpen) && calls == old(calls) + [MenuToggle]
    {
      calls := calls + [MenuToggle];
    }

    /** `handleLogout`: clears the session, closes the menu, and goes to the
        landing page. */
    method HandleLogout()
      modifies this
      ensures !isMenuOpen
      ensures calls == old(calls) + [ClearAuth, Navigate("/")]
    {
      calls := calls + [ClearAuth];
      isMenuOpen := false;
      calls := calls + [Navigate("/")];
    }
  }
}
