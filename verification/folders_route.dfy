/**
 * Input validation of `POST /api/folders`: who may create a folder, how its
 * name is cleaned, and which parent folders are accepted.
 */
module FoldersRoute {
  import opened Wrappers
  import opened Js
  import opened Ascii

  /** The longest folder name stored (the column is `varchar(80)`). */
  const MaxNameLength: nat := 80

  // ---------------------------------------------------------------------------
  // Names
  // ---------------------------------------------------------------------------

  /** ECMAScript WhiteSpace and LineTerminator: what `String.prototype.trim` removes. */
  predicate IsJsWhitespace(c: char) {
    || c == '\t' || c == '\U{000B}' || c == '\U{000C}' || c == ' ' || c == '\U{00A0}' || c == '\U{FEFF}'
    || c == '\U{1680}' || ('\U{2000}' <= c <= '\U{200A}') || c == '\U{202F}' || c == '\U{205F}' || c == '\U{3000}'
    || c == '\n' || c == '\r' || c == '\U{2028}' || c == '\U{2029}'
  }

  predicate AllWhitespace(s: string) {
    forall i :: 0 <= i < |s| ==> IsJsWhitespace(s[i])
  }

  /** Drop leading white space. */
  function TrimStart(s: string): (r: string)
    ensures |r| <= |s| && r == s[|s| - |r|..]
    ensures AllWhitespace(s[..|s| - |r|])
    ensures |r| == 0 || !IsJsWhitespace(r[0])
    decreases |s|
  {
    if |s| > 0 && IsJsWhitespace(s[0]) then
      var r := TrimStart(s[1..]);
      assert s[..|s| - |r|] == [s[0]] + s[1..][..|s| - 1 - |r|];
      r
    else s
  }

  /** Drop trailing white space. */
  function TrimEnd(s: string): (r: string)
    ensures |r| <= |s| && r == s[..|r|]
    ensures AllWhitespace(s[|r|..])
    ensures |r| == 0 || !IsJsWhitespace(r[|r| - 1])
    decreases |s|
  {
    if |s| > 0 && IsJsWhitespace(s[|s| - 1]) then
      var r := TrimEnd(s[..|s| - 1]);
      assert s[|r|..] == s[..|s| - 1][|r|..] + [s[|s| - 1]];
      r
    else s
  }

  /**
   * Trimming both ends leaves the slice of `s` between a white-space prefix
   * and a white-space suffix, with no white space at either of its ends.
   */
  lemma TrimEdges(s: string)
    ensures var r := TrimEnd(TrimStart(s));
      && (|r| == 0 || (!IsJsWhitespace(r[0]) && !IsJsWhitespace(r[|r| - 1])))
      && (r == "" <==> AllWhitespace(s))
      && |s| - |TrimStart(s)| + |r| <= |s|
      && IsTrimmedSlice(s, |s| - |TrimStart(s)|, r)
  {
    var t := TrimStart(s);
    var p := |s| - |t|;
    var r := TrimEnd(t);
    PrefixOfSuffix(s, p, t, r);
    assert IsTrimmedSlice(s, p, r);
    if r == "" {
      assert |t| == 0;
      assert AllWhitespace(s) by {
        forall i | 0 <= i < |s| ensures IsJsWhitespace(s[i]) {
          assert s[..p][i] == s[i];
        }
      }
    } else {
      assert r[0] == s[p];
    }
  }

  /** A prefix `r` of the suffix `t` of `s` from `p` is the slice of `s` from `p` of its length. */
  lemma PrefixOfSuffix(s: string, p: int, t: string, r: string)
    requires 0 <= p <= |s| && t == s[p..] && |r| <= |t| && r == t[..|r|]
    ensures r == s[p..p + |r|] && s[p + |r|..] == t[|r|..]
  {
  }

  /** `r` is `s` with `p` characters of white space cut from the front and white space only cut from the back. */
  predicate IsTrimmedSlice(s: string, p: int, r: string) {
    0 <= p && p + |r| <= |s| && r == s[p..p + |r|] && AllWhitespace(s[..p]) && AllWhitespace(s[p + |r|..])
  }

  /** `String.prototype.trim`. */
  function Trim(s: string): (r: string)
    ensures |r| == 0 || (!IsJsWhitespace(r[0]) && !IsJsWhitespace(r[|r| - 1]))
    ensures r == "" <==> AllWhitespace(s)
    ensures exists p :: IsTrimmedSlice(s, p, r)
  {
    TrimEdges(s);
    TrimEnd(TrimStart(s))
  }

  /** Any two trimmed slices without white space at their ends are the same: `Trim` is determined by its contract. */
  lemma TrimmedSliceIsUnique(s: string, p1: int, r1: string, p2: int, r2: string)
    requires IsTrimmedSlice(s, p1, r1) && IsTrimmedSlice(s, p2, r2)
    requires |r1| == 0 || (!IsJsWhitespace(r1[0]) && !IsJsWhitespace(r1[|r1| - 1]))
    requires |r2| == 0 || (!IsJsWhitespace(r2[0]) && !IsJsWhitespace(r2[|r2| - 1]))
    ensures r1 == r2
  {
    var e1, e2 := p1 + |r1|, p2 + |r2|;
    assert forall i :: 0 <= i < p1 ==> s[..p1][i] == s[i];
    assert forall i :: 0 <= i < p2 ==> s[..p2][i] == s[i];
    assert forall i :: e1 <= i < |s| ==> s[e1..][i - e1] == s[i];
    assert forall i :: e2 <= i < |s| ==> s[e2..][i - e2] == s[i];
    assert |r1| > 0 ==> r1[0] == s[p1] && r1[|r1| - 1] == s[e1 - 1];
    assert |r2| > 0 ==> r2[0] == s[p2] && r2[|r2| - 1] == s[e2 - 1];
  }

  /**
   * `typeof body?.name === "string" ? body.name : ""`, trimmed and cut to
   * its first 80 characters.
   */
  function FolderName(name: JsValue): (r: string)
    ensures |r| <= MaxNameLength
    ensures r == "" <==> !name.Str? || AllWhitespace(name.s)
    ensures name.Str? ==> r <= Trim(name.s)
    ensures name.Str? ==> |r| == if |Trim(name.s)| <= MaxNameLength then |Trim(name.s)| else MaxNameLength
  {
    var raw := if name.Str? then name.s else "";
    var t := Trim(raw);
    if |t| <= MaxNameLength then t else t[..MaxNameLength]
  }

  // ---------------------------------------------------------------------------
  // Parent ids
  // ---------------------------------------------------------------------------

  predicate IsHexDigit(c: char) {
    ('0' <= c <= '9') || ('a' <= c <= 'f') || ('A' <= c <= 'F')
  }

  /** The positions of the four '-' separators of the 8-4-4-4-12 layout. */
  predicate IsDashPosition(i: int) {
    i == 8 || i == 13 || i == 18 || i == 23
  }

  /**
   * `UUID_RE` with its `i` flag: 8-4-4-4-12 hexadecimal digits in either
   * case, a version digit 1 to 5 (section 4.1.3 of RFC 4122) and a variant
   * digit 8, 9, a or b (section 4.1.1 of RFC 4122).
   */
  predicate MatchesUuid(s: string): (r: bool)
    ensures r ==> |s| == 36 && s[8] == '-' && s[13] == '-' && s[18] == '-' && s[23] == '-'
    ensures r ==> '1' <= s[14] <= '5' && IsHexDigit(s[0]) && IsHexDigit(s[35])
  {
    assert IsDashPosition(8) && IsDashPosition(13) && IsDashPosition(18) && IsDashPosition(23);
    && |s| == 36
    && (forall i :: 0 <= i < 36 ==> if IsDashPosition(i) then s[i] == '-' else IsHexDigit(s[i]))
    && '1' <= s[14] <= '5'
    && s[19] in "89abAB"
  }

  /** The pattern is case-insensitive: a string matches exactly when its lower-case form does. */
  lemma MatchesUuidIgnoresCase(s: string)
    ensures MatchesUuid(s) <==> MatchesUuid(Lower(s))
  {
    var l := Lower(s);
    if |s| == 36 {
      assert forall i :: 0 <= i < 36 ==> (IsHexDigit(s[i]) <==> IsHexDigit(l[i])) && (s[i] == '-' <==> l[i] == '-');
      assert ('1' <= s[14] <= '5') <==> ('1' <= l[14] <= '5');
      assert (s[19] in "89abAB") <==> (l[19] in "89abAB");
    }
  }

  // ---------------------------------------------------------------------------
  // The route
  // ---------------------------------------------------------------------------

  /** A row of the `folders` table; ids are stored in lower case. */
  datatype Folder = Folder(id: string, owner: string, name: string, parent: Option<string>)

  /**
   * The parsed request body: `name` and `parentId` as JavaScript sees them;
   * both are `Nullish` when the body is not a JSON object.
   */
  datatype Body = Body(name: JsValue, parentId: JsValue)

  datatype Response =
    | Unauthorized
    | InvalidName
    | InvalidParentId
    | ParentNotFound
    | Created(folder: Folder)
  {
    /** The HTTP status of the response; 401, 404 and 201 each name one kind of response, 400 the two input errors. */
    function Status(): (code: int)
      ensures code == 401 <==> this == Unauthorized
      ensures code == 404 <==> this == ParentNotFound
      ensures code == 201 <==> this.Created?
      ensures code == 400 <==> this == InvalidName || this == InvalidParentId
    {
      match this
      case Unauthorized => 401
      case InvalidName => 400
      case InvalidParentId => 400
      case ParentNotFound => 404
      case Created(_) => 201
    }
  }

  /** The caller owns a folder with this id (compared as the uuid type does). */
  predicate OwnsFolder(folders: set<Folder>, user: string, id: string) {
    exists f :: f in folders && f.id == Lower(id) && f.owner == user
  }

  /** `s?.user?.id` is truthy: a session carrying a non-empty user id. */
  predicate SignedIn(session: Option<string>) {
    session.Some? && session.value != ""
  }

  /** A `parentId` that is a non-empty string; anything else means "no parent". */
  predicate HasParentId(body: Body) {
    body.parentId.Str? && body.parentId.s != ""
  }

  /**
   * `POST`: `session` is the user id the session carries, if any (an empty
   * id is falsy and counts as signed out); `folders` the
   * table; `freshId` the id the database assigns. A created folder is the
   * row the insert returns.
   */
  function PostFolder(session: Option<string>, body: Body, folders: set<Folder>, freshId: string): (r: Response)
    ensures !SignedIn(session) <==> r == Unauthorized
    ensures r == InvalidName <==> SignedIn(session) && FolderName(body.name) == ""
    ensures r == InvalidParentId <==>
      SignedIn(session) && FolderName(body.name) != "" && HasParentId(body) && !MatchesUuid(body.parentId.s)
    ensures r == ParentNotFound <==>
      && SignedIn(session) && FolderName(body.name) != "" && HasParentId(body) && MatchesUuid(body.parentId.s)
      && !OwnsFolder(folders, session.value, body.parentId.s)
    ensures r.Created? ==>
      && SignedIn(session)
      && r.folder == Folder(freshId, session.value, FolderName(body.name),
                            if HasParentId(body) then Some(Lower(body.parentId.s)) else None)
      && r.folder.name != "" && |r.folder.name| <= MaxNameLength
      && (r.folder.parent.Some? ==> exists f :: f in folders && f.id == r.folder.parent.value && f.owner == session.value)
  {
    if !SignedIn(session) then Unauthorized
    else
      var name := FolderName(body.name);
      if name == "" then InvalidName
      else if !HasParentId(body) then Created(Folder(freshId, session.value, name, None))
      else if !MatchesUuid(body.parentId.s) then InvalidParentId
      else if !OwnsFolder(folders, session.value, body.parentId.s) then ParentNotFound
      else Created(Folder(freshId, session.value, name, Some(Lower(body.parentId.s))))
  }
}
