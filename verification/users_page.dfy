/** The pure helpers of the team page: avatar initials, the role badge colour
    and the role counts of the overview card. Strings are sequences of Unicode
    scalar values, whereas JavaScript indexes UTF-16 code units: the two agree
    on names within the Basic Multilingual Plane. Upper-casing is modelled for
    ASCII letters only. */
module UsersPage {

  /** `s.split(' ')`: the pieces between single spaces, empty pieces
      included; there is always at least one piece. */
  function Split(s: string): (r: seq<string>)
    ensures |r| >= 1
    ensures forall i :: 0 <= i < |r| ==> ' ' !in r[i]
  {
    if s == [] then [""]
    else
      var rest := Split(s[1..]);
      if s[0] == ' ' then [""] + rest
      else
        assert forall i :: 1 <= i < |rest| ==> rest[i] == rest[1..][i - 1];
        [[s[0]] + rest[0]] + rest[1..]
  }

  /** `parts.join(' ')`, the inverse of Split. */
  function Join(parts: seq<string>): string
    requires |parts| >= 1
  {
    if |parts| == 1 then parts[0] else parts[0] + " " + Join(parts[1..])
  }

  /** Joining the pieces of a split with spaces gives back the original text. */
  lemma {:induction false} JoinSplit(s: string)
    ensures Join(Split(s)) == s
  {
    if s != [] {
      var rest := Split(s[1..]);
      JoinSplit(s[1..]);
      if s[0] == ' ' {
        assert Split(s)[1..] == rest;
      } else {
        var r := Split(s);
        assert r[0] == [s[0]] + rest[0] && r[1..] == rest[1..];
        if |rest| > 1 {
          assert Join(rest) == rest[0] + " " + Join(rest[1..]);
        }
      }
    }
  }

  /** Splitting space-free pieces joined with spaces gives the pieces back. */
  lemma {:induction false} SplitJoin(parts: seq<string>)
    requires |parts| >= 1
    requires forall i :: 0 <= i < |parts| ==> ' ' !in parts[i]
    ensures Split(Join(parts)) == parts
  {
    if |parts| == 1 {
      NoSpaceSplit(parts[0]);
    } else {
      SplitJoin(parts[1..]);
      SplitAfterWord(parts[0], Join(parts[1..]));
    }
  }

  /** A space-free text is one piece. */
  lemma {:induction false} NoSpaceSplit(w: string)
    requires ' ' !in w
    ensures Split(w) == [w]
  {
    if w != [] {
      assert ' ' !in w[1..] by {
        forall i | 0 <= i < |w[1..]| ensures w[1..][i] != ' ' { assert w[1..][i] == w[i + 1]; }
      }
      NoSpaceSplit(w[1..]);
      assert [w[0]] + w[1..] == w;
    }
  }

  /** A space-free word followed by a space and a text splits into the word
      and the pieces of the text. */
  lemma {:induction false} SplitAfterWord(w: string, t: string)
    requires ' ' !in w
    ensures Split(w + " " + t) == [w] + Split(t)
  {
    if w == [] {
      assert w + " " + t == [' '] + t;
      assert (w + " " + t)[1..] == t;
    } else {
      assert ' ' !in w[1..] by {
        forall i | 0 <= i < |w[1..]| ensures w[1..][i] != ' ' { assert w[1..][i] == w[i + 1]; }
      }
      SplitAfterWord(w[1..], t);
      assert (w + " " + t)[1..] == w[1..] + " " + t;
      assert [w[0]] + w[1..] == w;
    }
  }

  /** `.map(word => word[0]).join('')`: the first character of each piece;
      an empty piece contributes nothing. */
  function FirstChars(words: seq<string>): string {
    if words == [] then []
    else (if words[0] == [] then [] else [words[0][0]]) + FirstChars(words[1..])
  }

  /** Reference definition: the non-space characters that open the text or
      follow a space. */
  function WordStarts(s: string, atStart: bool): string {
    if s == [] then []
    else (if atStart && s[0] != ' ' then [s[0]] else []) + WordStarts(s[1..], s[0] == ' ')
  }

  lemma {:induction false} FirstCharsAreWordStarts(s: string)
    ensures FirstChars(Split(s)) == WordStarts(s, true)
    ensures FirstChars(Split(s)[1..]) == WordStarts(s, false)
  {
    if s != [] {
      FirstCharsAreWordStarts(s[1..]);
      var rest := Split(s[1..]);
      if s[0] == ' ' {
        assert Split(s)[1..] == rest;
      } else {
        assert Split(s)[1..] == rest[1..];
      }
    }
  }

  function ToUpper(c: char): char {
    if 'a' <= c <= 'z' then (c as int - 'a' as int + 'A' as int) as char else c
  }

  /** `.toUpperCase()` */
  function UpperAll(s: string): (r: string)
    ensures |r| == |s|
    ensures forall i :: 0 <= i < |s| ==> r[i] == ToUpper(s[i])
  {
    if s == [] then [] else [ToUpper(s[0])] + UpperAll(s[1..])
  }

  /** `.slice(0, n)` */
  function Take(s: string, n: nat): (r: string)
    ensures |r| == if |s| <= n then |s| else n
    ensures r == s[..|r|]
  {
    if |s| <= n then s else s[..n]
  }

  /** `getInitials(name)` */
  function GetInitials(name: string): (r: string)
    ensures |r| <= 2
  {
    Take(UpperAll(FirstChars(Split(name))), 2)
  }

  /** The initials are the upper-cased first letters of the first two words;
      runs of spaces and leading spaces add no initial. */
  lemma Initials(name: string)
    ensures GetInitials(name) == Take(UpperAll(WordStarts(name, true)), 2)
    ensures forall i :: 0 <= i < |GetInitials(name)| ==> GetInitials(name)[i] != ' '
  {
    FirstCharsAreWordStarts(name);
    WordStartsNoSpace(name, true);
  }

  /** The empty name has no initials; a one-word name has one, its upper-cased
      first letter. */
  lemma EmptyAndOneWordInitials(w: string)
    requires ' ' !in w
    ensures GetInitials("") == ""
    ensures w != [] ==> GetInitials(w) == [ToUpper(w[0])]
  {
    NoSpaceSplit(w);
    assert Split("") == [""];
    if w != [] {
      assert FirstChars([w]) == [w[0]];
    }
  }

  lemma {:induction false} WordStartsNoSpace(s: string, atStart: bool)
    ensures ' ' !in WordStarts(s, atStart)
  {
    if s != [] {
      WordStartsNoSpace(s[1..], s[0] == ' ');
    }
  }

  /** `getRoleColor(role)` */
  function RoleColor(role: string): string {
    if role == "admin" then "bg-red-100 text-red-800"
    else if role == "manager" then "bg-blue-100 text-blue-800"
    else if role == "member" then "bg-green-100 text-green-800"
    else "bg-gray-100 text-gray-800"
  }

  const Gray := "bg-gray-100 text-gray-800"

  /** The three named roles get three different badges; every other role,
      the schema's "employee" included, gets the gray default. */
  lemma RoleColors(role: string)
    ensures RoleColor("admin") != RoleColor("manager") && RoleColor("admin") != RoleColor("member")
    ensures RoleColor("manager") != RoleColor("member")
    ensures RoleColor(role) != Gray <==> role == "admin" || role == "manager" || role == "member"
    ensures RoleColor("employee") == Gray
  {
  }

  datatype TeamMember = TeamMember(full_name: string, role: string)

  /** `users.filter(u => u.role === role).length` */
  function CountRole(users: seq<TeamMember>, role: string): (n: nat)
    ensures n <= |users|
  {
    if users == [] then 0 else (if users[0].role == role then 1 else 0) + CountRole(users[1..], role)
  }

  /** The Admins and Members figures never add up to more than Total Members. */
  lemma {:induction false} CountsWithinTotal(users: seq<TeamMember>)
    ensures CountRole(users, "admin") + CountRole(users, "member") <= |users|
  {
    if users != [] {
      CountsWithinTotal(users[1..]);
    }
  }

  /** With the schema's roles (admin, manager, employee) the Members figure
      is always zero: the page counts "member", which the schema never stores. */
  lemma {:induction false} MembersCountForSchemaRoles(users: seq<TeamMember>)
    requires forall i :: 0 <= i < |users| ==> users[i].role in {"admin", "manager", "employee"}
    ensures CountRole(users, "member") == 0
  {
    if users != [] {
      assert users[0].role != "member";
      MembersCountForSchemaRoles(users[1..]);
    }
  }
}
