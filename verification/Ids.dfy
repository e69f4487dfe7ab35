/** Component ids of the form "type" or "type/name". */
module Ids {
  import opened Wrappers

  type Id = string

  /** strings.Cut at the first "/": the parts around it and whether it was found. */
  function Cut(s: string): (r: (string, string, bool))
    ensures |r.0| <= |s| && r.0 == s[..|r.0|]
    ensures forall i | 0 <= i < |r.0| :: r.0[i] != '/'
    ensures if r.2 then |r.0| < |s| && s[|r.0|] == '/' && r.1 == s[|r.0| + 1..] else |r.0| == |s| && r.1 == ""
  {
    if s == "" then ("", "", false)
    else if s[0] == '/' then ("", s[1..], true)
    else
      var (before, after, found) := Cut(s[1..]);
      ([s[0]] + before, after, found)
  }

  function Type(id: Id): string { Cut(id).0 }

  function Name(id: Id): string { Cut(id).1 }

  function WithName(id: Id, name: string): Id {
    if name == "" then Type(id) else Type(id) + "/" + name
  }

  function Join(typ: string, name: string, hasName: bool): Id {
    if hasName then typ + "/" + name else typ
  }

  lemma CutRejoins(s: string)
    ensures Join(Cut(s).0, Cut(s).1, Cut(s).2) == s
  {
    var (before, after, found) := Cut(s);
    if found {
      var n := |before|;
      assert s[n..] == "/" + after;
      assert s == s[..n] + s[n..];
    }
  }

  lemma CutJoined(before: string, after: string)
    requires '/' !in before
    ensures Cut(before + "/" + after) == (before, after, true)
  {
    var s := before + "/" + after;
    var b := Cut(s).0;
    assert s[|before|] == '/' && s[..|before|] == before && s[|before| + 1..] == after;
    assert |b| == |before|;
  }

  /** WithName keeps the type and stores exactly the given name, slashes and all. */
  lemma WithNameReadsBack(id: Id, name: string)
    ensures Type(WithName(id, name)) == Type(id)
    ensures Name(WithName(id, name)) == name
  {
    if name == "" {
      assert Cut(Type(id)).0 == Type(id);
    } else {
      CutJoined(Type(id), name);
    }
  }

  lemma WithNameInjective(id: Id, other: Id, a: string, b: string)
    ensures WithName(id, a) == WithName(other, b) <==> Type(id) == Type(other) && a == b
  {
    WithNameReadsBack(id, a);
    WithNameReadsBack(other, b);
  }

  /** Naming an id after itself gives it back, unless the id ends in its only "/". */
  lemma RenamingIsIdentity(id: Id)
    ensures WithName(id, Name(id)) == id <==> !(Cut(id).2 && Name(id) == "")
  {
    CutRejoins(id);
  }

  // ----- reading an id from text

  datatype IdError = EmptyId | EmptyType | BadType | EmptyName | BadName

  /** unicode.IsSpace. */
  predicate IsSpace(c: char) {
    || '\t' <= c <= '\r' || c == ' ' || c == '\U{85}' || c == '\U{A0}' || c == '\U{1680}'
    || '\U{2000}' <= c <= '\U{200A}' || c == '\U{2028}' || c == '\U{2029}'
    || c == '\U{202F}' || c == '\U{205F}' || c == '\U{3000}'
  }

  function TrimLeft(s: string): string {
    if s != "" && IsSpace(s[0]) then TrimLeft(s[1..]) else s
  }

  function TrimRight(s: string): string {
    if s != "" && IsSpace(s[|s| - 1]) then TrimRight(s[..|s| - 1]) else s
  }

  /** strings.TrimSpace. */
  function Trim(s: string): string { TrimRight(TrimLeft(s)) }

  lemma TrimLeftCuts(s: string) returns (i: nat)
    ensures i <= |s| && TrimLeft(s) == s[i..] && forall k | 0 <= k < i :: IsSpace(s[k])
    ensures i < |s| ==> !IsSpace(s[i])
  {
    if s != "" && IsSpace(s[0]) {
      i := TrimLeftCuts(s[1..]);
      i := i + 1;
    } else {
      i := 0;
    }
  }

  lemma TrimRightCuts(s: string) returns (j: nat)
    ensures j <= |s| && TrimRight(s) == s[..j] && forall k | j <= k < |s| :: IsSpace(s[k])
    ensures j > 0 ==> !IsSpace(s[j - 1])
  {
    if s != "" && IsSpace(s[|s| - 1]) {
      j := TrimRightCuts(s[..|s| - 1]);
    } else {
      j := |s|;
    }
  }

  /** Trimming cuts spaces off both ends, all of them and nothing else. */
  lemma TrimCuts(s: string) returns (i: nat, j: nat)
    ensures i <= j <= |s| && Trim(s) == s[i..j]
    ensures forall k | 0 <= k < i || j <= k < |s| :: IsSpace(s[k])
    ensures i < j ==> !IsSpace(s[i]) && !IsSpace(s[j - 1])
  {
    i := TrimLeftCuts(s);
    var k := TrimRightCuts(s[i..]);
    j := i + k;
    assert s[i..][..k] == s[i..j];
  }

  predicate IsLetter(c: char) { 'a' <= c <= 'z' || 'A' <= c <= 'Z' }

  predicate TypeMatches(s: string) {
    && 1 <= |s| <= 63
    && IsLetter(s[0])
    && forall i | 1 <= i < |s| :: IsLetter(s[i]) || '0' <= s[i] <= '9' || s[i] == '_'
  }

  /** Types have one to 63 characters, an ASCII letter first and then letters, digits and underscores. */
  lemma TypePattern(n: nat, c: char, d: char)
    ensures TypeMatches(seq(n, i => 'a')) <==> 1 <= n <= 63
    ensures TypeMatches([c]) <==> 65 <= c as int <= 90 || 97 <= c as int <= 122
    ensures TypeMatches(['a', d]) <==> TypeMatches([d]) || 48 <= d as int <= 57 || d == '_'
  {
    assert ['a', d][1] == d;
  }

  /** `excluded` stands for the Unicode classes Z, C and S, which hold every space. */
  predicate NameMatches(s: string, excluded: char -> bool) {
    s != "" && forall i | 0 <= i < |s| :: !excluded(s[i])
  }

  /** The id that a text denotes, or the first complaint about it. */
  function Parse(text: string, excluded: char -> bool): Result<Id, IdError> {
    var (before, after, hasName) := Cut(text);
    var typ, name := Trim(before), Trim(after);
    if typ == "" then Failure(if hasName then EmptyType else EmptyId)
    else if !TypeMatches(typ) then Failure(BadType)
    else if hasName && name == "" then Failure(EmptyName)
    else if hasName && !NameMatches(name, excluded) then Failure(BadName)
    else Success(Join(typ, name, hasName))
  }

  /** An id as UnmarshalText leaves it: a valid type alone, or with a valid name. */
  predicate Canonical(id: Id, excluded: char -> bool) {
    TypeMatches(Type(id)) && (Cut(id).2 ==> NameMatches(Name(id), excluded))
  }

  lemma TypeIsTrimmed(s: string)
    requires TypeMatches(s)
    ensures Trim(s) == s
  {
    assert !IsSpace(s[0]) && !IsSpace(s[|s| - 1]);
  }

  lemma NameIsTrimmed(s: string, excluded: char -> bool)
    requires forall c | IsSpace(c) :: excluded(c)
    requires NameMatches(s, excluded)
    ensures Trim(s) == s
  {
    assert !IsSpace(s[0]) && !IsSpace(s[|s| - 1]);
  }

  /** Whatever UnmarshalText accepts, it stores as a canonical id, so reading is idempotent. */
  lemma ParseIsCanonical(text: string, excluded: char -> bool)
    requires Parse(text, excluded).Success?
    ensures Canonical(Parse(text, excluded).value, excluded)
  {
    var (before, after, hasName) := Cut(text);
    if hasName {
      CutJoined(Trim(before), Trim(after));
    }
  }

  lemma CanonicalParses(id: Id, excluded: char -> bool)
    requires forall c | IsSpace(c) :: excluded(c)
    requires Canonical(id, excluded)
    ensures Parse(id, excluded) == Success(id)
  {
    var (before, after, hasName) := Cut(id);
    TypeIsTrimmed(before);
    if hasName {
      NameIsTrimmed(after, excluded);
    }
    assert Parse(id, excluded) == Success(Join(before, after, hasName));
    CutRejoins(id);
  }

  /** MarshalText writes the id itself, and reading that text gives the id back exactly for canonical ids. */
  lemma ReadsBackIffCanonical(id: Id, excluded: char -> bool)
    requires forall c | IsSpace(c) :: excluded(c)
    ensures Parse(id, excluded) == Success(id) <==> Canonical(id, excluded)
  {
    if Canonical(id, excluded) {
      CanonicalParses(id, excluded);
    } else if Parse(id, excluded).Success? {
      ParseIsCanonical(id, excluded);
    }
  }

  /** A text is an id exactly when its type matches and so does its name, if it has one. */
  lemma ParseSucceedsIff(text: string, excluded: char -> bool)
    ensures var (before, after, hasName) := Cut(text);
            Parse(text, excluded).Success? <==>
            TypeMatches(Trim(before)) && (hasName ==> NameMatches(Trim(after), excluded))
  {
    var (before, after, hasName) := Cut(text);
    assert TypeMatches(Trim(before)) ==> Trim(before) != "";
    assert NameMatches(Trim(after), excluded) ==> Trim(after) != "";
  }

  lemma CutFinds(s: string)
    ensures Cut(s).2 <==> '/' in s
  {
    var (before, after, found) := Cut(s);
    if found {
      assert s[|before|] == '/';
    }
  }

  /** Which complaint a text meets; each rules out the ones before it. */
  lemma ParseComplains(text: string, excluded: char -> bool)
    ensures var p := Parse(text, excluded);
            var (before, after, _) := Cut(text);
            && (p == Failure(EmptyId) <==> '/' !in text && Trim(before) == "")
            && (p == Failure(EmptyType) <==> '/' in text && Trim(before) == "")
            && (p == Failure(BadType) <==> Trim(before) != "" && !TypeMatches(Trim(before)))
            && (p == Failure(EmptyName) <==> '/' in text && TypeMatches(Trim(before)) && Trim(after) == "")
            && (p == Failure(BadName) <==>
                  && '/' in text && TypeMatches(Trim(before)) && Trim(after) != "" && !NameMatches(Trim(after), excluded))
  {
    CutFinds(text);
  }

  /** What the comment on the name pattern says: at most 1024 characters. */
  predicate AsDocumented(text: string, excluded: char -> bool) {
    var (before, after, hasName) := Cut(text);
    && TypeMatches(Trim(before))
    && (hasName ==> NameMatches(Trim(after), excluded) && |Trim(after)| <= 1024)
  }

  /** The comment describes what is accepted, but for names beyond 1024 characters. */
  lemma DocumentedIffShort(text: string, excluded: char -> bool)
    ensures AsDocumented(text, excluded) <==> Parse(text, excluded).Success? && |Trim(Cut(text).1)| <= 1024
  {
    ParseSucceedsIff(text, excluded);
    if !Cut(text).2 {
      assert Trim("") == "";
    }
  }

  /** Names of every length are accepted, those beyond 1024 characters too. */
  lemma LongNamesAccepted(n: nat, excluded: char -> bool)
    requires n > 0 && !excluded('x') && forall c | IsSpace(c) :: excluded(c)
    ensures var name := seq(n, i => 'x');
            && Parse("a" + "/" + name, excluded) == Success("a" + "/" + name)
            && (n > 1024 ==> !AsDocumented("a" + "/" + name, excluded))
  {
    var name := seq(n, i => 'x');
    CutJoined("a", name);
    CanonicalParses("a" + "/" + name, excluded);
    NameIsTrimmed(name, excluded);
  }

  /** The id that ends in its only slash is renamed to its type. */
  lemma RenamingDropsSlash()
    ensures WithName("a/", Name("a/")) == "a" != "a/"
  {
    CutJoined("a", "");
    assert "a" + "/" + "" == "a/";
  }

  /** An id variable that UnmarshalText writes to. */
  class IdVariable {
    var id: Id

    constructor (id: Id)
      ensures this.id == id
    {
      this.id := id;
    }

    method UnmarshalText(text: string, excluded: char -> bool) returns (err: Option<IdError>)
      modifies this
      ensures match Parse(text, excluded)
              case Success(v) => err.None? && id == v
              case Failure(e) => err == Some(e) && id == old(id)
    {
      var (typ, name, hasName) := Cut(text);
      typ := Trim(typ);
      if typ == "" {
        if hasName {
          return Some(EmptyType);
        }
        return Some(EmptyId);
      }
      if !TypeMatches(typ) {
        return Some(BadType);
      }
      if hasName {
        name := Trim(name);
        if name == "" {
          return Some(EmptyName);
        }
        if !NameMatches(name, excluded) {
          return Some(BadName);
        }
      }
      var v := typ;
      if hasName {
        v := v + "/" + name;
      }
      id := v;
      return None;
    }
  }
}
