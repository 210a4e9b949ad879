/** The textual form of relationship tuples: validity, printing and parsing. */
module TupleText {
  import opened Options

  /** The characters Go's regexp syntax matches with `\s`. */
  predicate IsSpace(c: char) {
    c == ' ' || c == '\t' || c == '\n' || c == '\r' || c == '\U{000C}'
  }

  /** A non-empty run of characters outside the forbidden set and outside white space. */
  predicate Plain(s: string, forbidden: string) {
    s != "" && forall i :: 0 <= i < |s| ==> s[i] !in forbidden && !IsSpace(s[i])
  }

  /** objectRegex: `type:id`, with one `:`, no `#` and no white space. */
  predicate ValidObject(s: string) {
    exists i :: 0 <= i < |s| && s[i] == ':' && Plain(s[..i], ":#") && Plain(s[i + 1..], ":#")
  }

  /** relationRegex. */
  predicate ValidRelation(s: string) {
    Plain(s, ":#@")
  }

  /** userSetRegex: `type:id#relation`. */
  predicate ValidUserset(s: string) {
    exists i, j :: 0 <= i < j < |s| && s[i] == ':' && s[j] == '#' && Plain(s[..i], ":#") && Plain(s[i + 1..j], "#:*") &&
      Plain(s[j + 1..], ":#*")
  }

  /** IsValidUser: the wildcard, a plain id, an object or a userset. */
  predicate ValidUser(s: string) {
    s == "*" || Plain(s, ":#") || ValidObject(s) || ValidUserset(s)
  }

  // ------------------------------------------------------------ searching and cutting

  /** strings.IndexByte. */
  function IndexByte(s: string, c: char): (i: int)
    ensures i == -1 <==> c !in s
    ensures i != -1 ==> 0 <= i < |s| && s[i] == c && c !in s[..i]
  {
    if s == "" then -1
    else if s[0] == c then 0
    else
      var j := IndexByte(s[1..], c);
      if j == -1 then -1 else assert s[..j + 1] == [s[0]] + s[1..][..j]; j + 1
  }

  /** strings.LastIndexByte. */
  function LastIndexByte(s: string, c: char): (i: int)
    ensures i == -1 <==> c !in s
    ensures i != -1 ==> 0 <= i < |s| && s[i] == c && c !in s[i + 1..]
  {
    if s == "" then -1
    else
      var n := |s| - 1;
      assert s == s[..n] + [s[n]];
      if s[n] == c then n
      else
        var j := LastIndexByte(s[..n], c);
        if j == -1 then -1 else assert s[j + 1..] == s[..n][j + 1..] + [s[n]]; j
  }

  /** strings.Cut: the parts around the first occurrence. */
  function Cut(s: string, c: char): Option<(string, string)> {
    var i := IndexByte(s, c);
    if i == -1 then None else Some((s[..i], s[i + 1..]))
  }

  lemma {:induction false} FirstAt(a: string, c: char, b: string)
    requires c !in a
    ensures IndexByte(a + [c] + b, c) == |a|
  {
    if a != "" {
      assert (a + [c] + b)[1..] == a[1..] + [c] + b;
      FirstAt(a[1..], c, b);
    }
  }

  lemma {:induction false} LastAt(a: string, c: char, b: string)
    requires c !in b
    ensures LastIndexByte(a + [c] + b, c) == |a|
  {
    if b != "" {
      var n := |b| - 1;
      assert (a + [c] + b)[..|a| + |b|] == a + [c] + b[..n];
      LastAt(a, c, b[..n]);
    }
  }

  lemma CutAt(a: string, c: char, b: string)
    requires c !in a
    ensures Cut(a + [c] + b, c) == Some((a, b))
  {
    FirstAt(a, c, b);
    assert (a + [c] + b)[..|a|] == a && (a + [c] + b)[|a| + 1..] == b;
  }

  lemma CutJoins(s: string, c: char)
    ensures Cut(s, c).Some? ==> var p := Cut(s, c).value; s == p.0 + [c] + p.1 && c !in p.0
  {
  }

  // ------------------------------------------------------------ tuples

  datatype TupleKey = TupleKey(obj: string, relation: string, user: string)

  predicate ValidTuple(t: TupleKey) {
    ValidObject(t.obj) && ValidRelation(t.relation) && ValidUser(t.user)
  }

  /** TupleKeyToString. */
  function Print(t: TupleKey): string {
    t.obj + "#" + t.relation + "@" + t.user
  }

  /** ParseTupleString. */
  function Parse(s: string): Option<TupleKey> {
    match Cut(s, '#')
    case None => None
    case Some((obj, rhs)) =>
      if !ValidObject(obj) then None
      else match Cut(rhs, '@')
        case None => None
        case Some((relation, user)) =>
          if ValidRelation(relation) && ValidUser(user) then Some(TupleKey(obj, relation, user)) else None
  }

  lemma PlainAvoids(s: string, forbidden: string, c: char)
    requires Plain(s, forbidden) && c in forbidden
    ensures c !in s
  {
  }

  lemma ObjectAvoidsHash(s: string)
    requires ValidObject(s)
    ensures '#' !in s
  {
  }

  /** Parsing and printing are inverse on valid tuples, and only texts of valid tuples parse. */
  lemma ParsePrint(t: TupleKey)
    requires ValidTuple(t)
    ensures Parse(Print(t)) == Some(t)
  {
    var rhs := t.relation + "@" + t.user;
    ObjectAvoidsHash(t.obj);
    PlainAvoids(t.relation, ":#@", '@');
    assert Print(t) == t.obj + ['#'] + rhs;
    CutAt(t.obj, '#', rhs);
    CutAt(t.relation, '@', t.user);
  }

  lemma PrintAssociates(obj: string, relation: string, user: string)
    ensures Print(TupleKey(obj, relation, user)) == obj + ['#'] + (relation + ['@'] + user)
  {
  }

  lemma PrintParse(s: string)
    requires Parse(s).Some?
    ensures ValidTuple(Parse(s).value) && Print(Parse(s).value) == s
  {
    var (obj, rhs) := Cut(s, '#').value;
    CutJoins(s, '#');
    CutJoins(rhs, '@');
    var (relation, user) := Cut(rhs, '@').value;
    PrintAssociates(obj, relation, user);
  }

  /** Different valid tuples have different texts. */
  lemma PrintInjective(t: TupleKey, u: TupleKey)
    requires ValidTuple(t) && ValidTuple(u) && Print(t) == Print(u)
    ensures t == u
  {
    ParsePrint(t);
    ParsePrint(u);
  }

  // ------------------------------------------------------------ users

  /** SplitObject: around the first `:`. */
  function SplitObject(s: string): (string, string) {
    var i := IndexByte(s, ':');
    if i == -1 then ("", s) else (s[..i], s[i + 1..])
  }

  /** SplitObjectRelation: around the last `#`. */
  function SplitObjectRelation(s: string): (string, string) {
    var i := LastIndexByte(s, '#');
    if i == -1 then (s, "") else (s[..i], s[i + 1..])
  }

  /** ToUserParts: type, id and relation. */
  function ToUserParts(user: string): (string, string, string) {
    var (o, relation) := SplitObjectRelation(user);
    var (typ, id) := SplitObject(o);
    (typ, id, relation)
  }

  function Join(typ: string, id: string): string {
    if typ != "" then typ + ":" + id else id
  }

  function FromUserParts(typ: string, id: string, relation: string): string {
    var o := Join(typ, id);
    if relation != "" then o + "#" + relation else o
  }

  function FromParts(p: (string, string, string)): string {
    FromUserParts(p.0, p.1, p.2)
  }

  lemma SplitJoins(s: string)
    ensures |Join(SplitObject(s).0, SplitObject(s).1)| <= |s|
    ensures Join(SplitObject(s).0, SplitObject(s).1) == s <==> s == "" || s[0] != ':'
  {
  }

  /** An object split and joined again. */
  function Rejoined(s: string): string {
    Join(SplitObject(s).0, SplitObject(s).1)
  }

  /** A user is rebuilt from its parts exactly if it neither begins with `:` nor ends with `#`. */
  lemma UserRoundTrip(user: string)
    ensures FromParts(ToUserParts(user)) == user <==> user == "" || (user[0] != ':' && user[|user| - 1] != '#')
  {
    var i := LastIndexByte(user, '#');
    if i == -1 {
      NoHash(user);
    } else if i == |user| - 1 {
      TrailingHash(user, i);
    } else {
      InnerHash(user, i);
    }
  }

  lemma NoHash(user: string)
    requires LastIndexByte(user, '#') == -1
    ensures FromParts(ToUserParts(user)) == user <==> user == "" || (user[0] != ':' && user[|user| - 1] != '#')
  {
    SplitJoins(user);
    assert FromParts(ToUserParts(user)) == Rejoined(user);
  }

  lemma TrailingHash(user: string, i: nat)
    requires i == |user| - 1 && LastIndexByte(user, '#') == i
    ensures FromParts(ToUserParts(user)) != user && user[|user| - 1] == '#'
  {
    SplitJoins(user[..i]);
    assert FromParts(ToUserParts(user)) == Rejoined(user[..i]);
  }

  lemma InnerHash(user: string, i: nat)
    requires i < |user| - 1 && LastIndexByte(user, '#') == i
    ensures FromParts(ToUserParts(user)) == user <==> user[0] != ':' && user[|user| - 1] != '#'
  {
    InnerParts(user, i);
    RelationRoundTrip(user, i, user[..i], Rejoined(user[..i]), user[i..]);
  }

  lemma InnerParts(user: string, i: nat)
    requires i < |user| - 1 && LastIndexByte(user, '#') == i
    ensures FromParts(ToUserParts(user)) == Rejoined(user[..i]) + user[i..] && '#' !in user[i + 1..] && user[i] == '#'
  {
    var parts, relation := SplitObject(user[..i]), user[i + 1..];
    SplitInner(user, i);
    JoinParts(parts.0, parts.1, relation);
    assert "#" + relation == user[i..];
  }

  lemma SplitInner(user: string, i: nat)
    requires i < |user| - 1 && LastIndexByte(user, '#') == i
    ensures ToUserParts(user) == (SplitObject(user[..i]).0, SplitObject(user[..i]).1, user[i + 1..])
    ensures '#' !in user[i + 1..] && user[i] == '#'
  {
  }

  lemma JoinParts(typ: string, id: string, relation: string)
    requires relation != ""
    ensures FromUserParts(typ, id, relation) == Join(typ, id) + ("#" + relation)
  {
    assert Join(typ, id) + "#" + relation == Join(typ, id) + ("#" + relation);
  }

  lemma RelationRoundTrip(user: string, i: nat, o: string, o': string, rest: string)
    requires i < |user| - 1 && user[i] == '#' && '#' !in user[i + 1..] && o == user[..i] && rest == user[i..]
    requires o' == Rejoined(o)
    ensures o' + rest == user <==> user[0] != ':' && user[|user| - 1] != '#'
  {
    SplitJoins(o);
    assert user[|user| - 1] in user[i + 1..];
    assert user == o + rest;
    SameTail(o', o, rest);
  }

  lemma SameTail(a: string, b: string, c: string)
    ensures a + c == b + c <==> a == b
  {
    assert a == (a + c)[..|a|] && b == (b + c)[..|b|];
  }

  lemma ObjectEnds(user: string)
    requires ValidObject(user)
    ensures user != "" && user[0] != ':' && user[|user| - 1] != '#'
  {
  }

  lemma UsersetEnds(user: string)
    requires ValidUserset(user)
    ensures user != "" && user[0] != ':' && user[|user| - 1] != '#'
  {
  }

  /** Valid users are rebuilt from their parts. */
  lemma ValidUserRoundTrip(user: string)
    requires ValidUser(user)
    ensures FromParts(ToUserParts(user)) == user
  {
    UserRoundTrip(user);
    if ValidObject(user) {
      ObjectEnds(user);
    } else if ValidUserset(user) {
      UsersetEnds(user);
    }
  }

  /** The parts are recovered from the text exactly if no separator is where it would be taken for another one. */
  predicate Separable(typ: string, id: string, relation: string) {
    && ':' !in typ && '#' !in relation
    && (typ == "" ==> ':' !in id)
    && (relation == "" ==> '#' !in typ && '#' !in id)
  }

  lemma SeparableParts(typ: string, id: string, relation: string)
    requires Separable(typ, id, relation)
    ensures ToUserParts(FromUserParts(typ, id, relation)) == (typ, id, relation)
  {
    var o := Join(typ, id);
    var user := FromUserParts(typ, id, relation);
    if relation != "" {
      assert user == o + ['#'] + relation;
      LastAt(o, '#', relation);
      assert user[..|o|] == o && user[|o| + 1..] == relation;
    }
    assert SplitObjectRelation(user) == (o, relation);
    JoinSplits(typ, id);
  }

  lemma JoinSplits(typ: string, id: string)
    requires ':' !in typ && (typ == "" ==> ':' !in id)
    ensures SplitObject(Join(typ, id)) == (typ, id)
  {
    var o := Join(typ, id);
    if typ != "" {
      assert o == typ + [':'] + id;
      FirstAt(typ, ':', id);
      assert o[..|typ|] == typ && o[|typ| + 1..] == id;
    }
  }

  lemma PartsRoundTrip(typ: string, id: string, relation: string)
    ensures ToUserParts(FromUserParts(typ, id, relation)) == (typ, id, relation) <==> Separable(typ, id, relation)
  {
    if Separable(typ, id, relation) { SeparableParts(typ, id, relation); } else { InseparableParts(typ, id, relation); }
  }

  lemma InseparableParts(typ: string, id: string, relation: string)
    requires !Separable(typ, id, relation)
    ensures ToUserParts(FromUserParts(typ, id, relation)) != (typ, id, relation)
  {
    var user, o := FromUserParts(typ, id, relation), Join(typ, id);
    if '#' in relation || ':' in typ {
      assert '#' !in SplitObjectRelation(user).1;
      assert ':' !in SplitObject(SplitObjectRelation(user).0).0;
    } else if relation == "" && ('#' in typ || '#' in id) {
      assert '#' in o;
      HashLost(o);
    } else {
      if relation != "" {
        assert user == id + ['#'] + relation;
        LastAt(id, '#', relation);
        assert user[..|id|] == id;
      }
      assert SplitObjectRelation(user).0 == id;
      assert IndexByte(id, ':') != -1;
    }
  }

  lemma HashLost(o: string)
    requires '#' in o
    ensures |Join(SplitObject(SplitObjectRelation(o).0).0, SplitObject(SplitObjectRelation(o).0).1)| < |o|
  {
  }
}
