/** The main layout: the `classNames` helper, the navigation bar's current
    marking, the sign-out handler and the avatar initial. */
module Layout {
  import opened Wrappers
  import Api
  import Auth

  // ---------------------------------------------------------------------
  // classNames

  /** `classes.filter(Boolean)`: the non-empty arguments, in order. */
  function NonEmpty(xs: seq<string>): (r: seq<string>)
    ensures forall i :: 0 <= i < |r| ==> r[i] != ""
    ensures forall x :: x in r <==> x in xs && x != ""
    ensures forall x :: multiset(r)[x] == if x == "" then 0 else multiset(xs)[x]
    ensures |r| <= |xs|
  {
    if |xs| == 0 then []
    else
      assert xs == [xs[0]] + xs[1..];
      (if xs[0] != "" then [xs[0]] else []) + NonEmpty(xs[1..])
  }

  /** `filter` laws: the non-empty arguments of a concatenation are those of
      each part, in order, and a single argument is kept exactly when it is
      non-empty. Together they fix the result as the non-empty arguments in
      their original order, repetitions included. */
  lemma {:induction false} NonEmptyFilterLaws(a: seq<string>, b: seq<string>)
    ensures NonEmpty(a + b) == NonEmpty(a) + NonEmpty(b)
    ensures forall x :: NonEmpty([x]) == if x == "" then [] else [x]
  {
    NonEmptyAppend(a, b);
    forall x ensures NonEmpty([x]) == if x == "" then [] else [x] {
      assert [x][1..] == [];
    }
  }

  lemma {:induction false} NonEmptyAppend(a: seq<string>, b: seq<string>)
    ensures NonEmpty(a + b) == NonEmpty(a) + NonEmpty(b)
  {
    if |a| > 0 {
      var head := if a[0] != "" then [a[0]] else [];
      assert (a + b)[0] == a[0] && (a + b)[1..] == a[1..] + b;
      NonEmptyAppend(a[1..], b);
      assert NonEmpty(a) == head + NonEmpty(a[1..]);
    } else {
      assert a + b == b;
    }
  }

  /** `join(' ')`: the strings separated by single spaces. */
  function Join(ys: seq<string>): string {
    if |ys| == 0 then ""
    else if |ys| == 1 then ys[0]
    else ys[0] + " " + Join(ys[1..])
  }

  function ClassNames(classes: seq<string>): string {
    Join(NonEmpty(classes))
  }

  /** Joining non-empty strings is empty only when there are none. */
  lemma {:induction false} JoinEmpty(ys: seq<string>)
    requires forall i :: 0 <= i < |ys| ==> ys[i] != ""
    ensures Join(ys) == "" <==> ys == []
  {
    if |ys| > 1 {
      assert |Join(ys)| >= |ys[0]| > 0;
    }
  }

  /** `classNames` of only empty strings (or of none) is the empty string,
      and only those. */
  lemma ClassNamesEmpty(classes: seq<string>)
    ensures ClassNames(classes) == "" <==> forall i :: 0 <= i < |classes| ==> classes[i] == ""
  {
    JoinEmpty(NonEmpty(classes));
    if NonEmpty(classes) != [] {
      var x := NonEmpty(classes)[0];
      assert x in classes && x != "";
      var i :| 0 <= i < |classes| && classes[i] == x;
    } else {
      forall i | 0 <= i < |classes| ensures classes[i] == "" {
        assert classes[i] in classes;
      }
    }
  }

  /** The longest prefix of `s` without a space. */
  function Word(s: string): (w: string)
    ensures |w| <= |s| && w == s[..|w|]
    ensures ' ' !in w
    ensures |w| < |s| ==> s[|w|] == ' '
  {
    if |s| == 0 || s[0] == ' ' then "" else [s[0]] + Word(s[1..])
  }

  /** The class tokens of a class string: its maximal runs between spaces,
      in order. Only the space character separates here; the browser also
      splits on tab, line feed, form feed and carriage return. */
  function Tokens(s: string): seq<string>
    decreases |s|
  {
    if |s| == 0 then []
    else if s[0] == ' ' then Tokens(s[1..])
    else Tokens'(s)
  }

  function Tokens'(s: string): seq<string>
    requires |s| > 0 && s[0] != ' '
    decreases |s|, 0
  {
    var w := Word(s);
    assert |w| > 0 by { assert w == [s[0]] + Word(s[1..]); }
    [w] + Tokens(s[|w|..])
  }

  /** The class tokens of each argument, concatenated. */
  function TokensOfAll(xs: seq<string>): seq<string> {
    if |xs| == 0 then [] else Tokens(xs[0]) + TokensOfAll(xs[1..])
  }

  /** A word is not changed by what follows a space after it. */
  lemma {:induction false} WordBeforeSpace(a: string, b: string)
    ensures Word(a + " " + b) == Word(a)
  {
    if |a| > 0 && a[0] != ' ' {
      assert (a + " " + b)[1..] == a[1..] + " " + b;
      WordBeforeSpace(a[1..], b);
    }
  }

  /** Separating two class strings by a space concatenates their tokens. */
  lemma {:induction false} TokensAcrossSpace(a: string, b: string)
    ensures Tokens(a + " " + b) == Tokens(a) + Tokens(b)
    decreases |a|
  {
    var s := a + " " + b;
    if |a| == 0 {
      assert s[1..] == b;
    } else if a[0] == ' ' {
      assert s[1..] == a[1..] + " " + b;
      TokensAcrossSpace(a[1..], b);
    } else {
      var w := Word(a);
      WordBeforeSpace(a, b);
      assert |w| > 0 by { assert w == [a[0]] + Word(a[1..]); }
      assert s[|w|..] == a[|w|..] + " " + b;
      TokensAcrossSpace(a[|w|..], b);
      assert s[0] == a[0];
      assert Tokens(s) == [w] + Tokens(s[|w|..]);
      assert Tokens(a) == [w] + Tokens(a[|w|..]);
    }
  }

  lemma {:induction false} TokensOfJoin(ys: seq<string>)
    ensures Tokens(Join(ys)) == TokensOfAll(ys)
  {
    if |ys| == 1 {
      assert TokensOfAll(ys) == Tokens(ys[0]) + TokensOfAll([]);
    } else if |ys| > 1 {
      TokensAcrossSpace(ys[0], Join(ys[1..]));
      TokensOfJoin(ys[1..]);
    }
  }

  lemma {:induction false} TokensOfNonEmpty(xs: seq<string>)
    ensures TokensOfAll(NonEmpty(xs)) == TokensOfAll(xs)
  {
    if |xs| > 0 {
      TokensOfNonEmpty(xs[1..]);
      if xs[0] != "" {
        assert NonEmpty(xs) == [xs[0]] + NonEmpty(xs[1..]);
        assert NonEmpty(xs)[1..] == NonEmpty(xs[1..]);
      } else {
        assert NonEmpty(xs) == NonEmpty(xs[1..]);
      }
    }
  }

  /** `classNames` applies every class of every argument, in order, and no
      other class. */
  lemma ClassNamesTokens(classes: seq<string>)
    ensures Tokens(ClassNames(classes)) == TokensOfAll(classes)
  {
    TokensOfJoin(NonEmpty(classes));
    TokensOfNonEmpty(classes);
  }

  // ---------------------------------------------------------------------
  // Navigation

  datatype NavItem = NavItem(name: string, href: string, current: bool)

  /** The navigation entries, in order. */
  const NavEntries: seq<(string, string)> := [
    ("Dashboard", "/"),
    ("Budget", "/budget"),
    ("Packing", "/packing"),
    ("Itinerary", "/itinerary"),
    ("Culinary", "/culinary")
  ]

  /** The navigation entries with `current` set for the entry whose href is
      the current pathname. */
  function Navigation(pathname: string): (nav: seq<NavItem>)
    ensures |nav| == |NavEntries| == 5
    ensures forall i :: 0 <= i < 5 ==> nav[i].name == NavEntries[i].0 && nav[i].href == NavEntries[i].1
    ensures forall i :: 0 <= i < 5 ==> (nav[i].current <==> nav[i].href == pathname)
  {
    seq(5, i requires 0 <= i < 5 => NavItem(NavEntries[i].0, NavEntries[i].1, NavEntries[i].1 == pathname))
  }

  /** At most one entry is current, and one is exactly when the pathname is
      one of the entries' hrefs. */
  lemma NavigationCurrent(pathname: string)
    ensures forall i, j :: 0 <= i < j < 5 ==> !(Navigation(pathname)[i].current && Navigation(pathname)[j].current)
    ensures (exists i :: 0 <= i < 5 && Navigation(pathname)[i].current)
            <==> pathname in {"/", "/budget", "/packing", "/itinerary", "/culinary"}
  {
    var nav := Navigation(pathname);
    forall i, j | 0 <= i < j < 5 ensures !(nav[i].current && nav[j].current) {
      assert |NavEntries[i].1| != |NavEntries[j].1|;
    }
    if pathname in {"/", "/budget", "/packing", "/itinerary", "/culinary"} {
      var i := if pathname == "/" then 0 else if pathname == "/budget" then 1
               else if pathname == "/packing" then 2 else if pathname == "/itinerary" then 3 else 4;
      assert nav[i].current;
    }
  }

  // ---------------------------------------------------------------------
  // Sign out and avatar

  /** The "Sign out" menu item: logs out, then navigates to `/login`. */
  method HandleLogout(auth: Auth.AuthProvider) returns (target: string)
    modifies auth, auth.storage
    ensures auth.LoggedOut() && auth.InSync()
    ensures target == "/login"
  {
    auth.Logout();
    target := "/login";
  }

  /** `toUpperCase` on one character, for the ASCII range. */
  function UpperCase(c: char): (u: char)
    ensures !('a' <= u <= 'z')
    ensures !('a' <= c <= 'z') ==> u == c
    ensures 'a' <= c <= 'z' ==> 'A' <= u <= 'Z' && u as int - c as int == 'A' as int - 'a' as int
  {
    if 'a' <= c <= 'z' then (c as int - 'a' as int + 'A' as int) as char else c
  }

  /** `user?.username?.[0]?.toUpperCase()`: nothing without a user or with
      an empty username, otherwise the username's first character in upper
      case. */
  function AvatarInitial(user: Option<Api.User>): (initial: Option<string>)
    ensures initial.None? <==> user.None? || user.value.username == ""
    ensures initial.Some? ==> |initial.value| == 1
                              && initial.value[0] == UpperCase(user.value.username[0])
  {
    match user
    case None => None
    case Some(u) => if |u.username| == 0 then None else Some([UpperCase(u.username[0])])
  }
}
