/** Values that several services share. */
module Types {

  datatype Option<+T> = None | Some(value: T)

  /** A group member as the caches store it. */
  datatype User = User(id: string, username: string, firstName: string, lastName: string, email: string)

  datatype Group = Group(id: string, name: string, path: string)

  /** What `String.prototype.trim` removes. */
  predicate IsSpace(c: char) {
    || c in " \t\n\r\U{000B}\U{000C}\U{00A0}\U{FEFF}\U{1680}\U{2028}\U{2029}\U{202F}\U{205F}\U{3000}"
    || '\U{2000}' <= c <= '\U{200A}'
  }

  predicate IsBlank(s: string) {
    forall i :: 0 <= i < |s| ==> IsSpace(s[i])
  }

  predicate ValidMember(u: User) {
    !IsBlank(u.id) && !IsBlank(u.username)
  }

  /** `sanitizeGroupMembers`: only members with an id and a username are cached. */
  function SanitizeMembers(members: seq<User>): (r: seq<User>)
    ensures forall u :: u in r <==> u in members && ValidMember(u)
    ensures |r| <= |members|
    ensures (forall u :: u in members ==> ValidMember(u)) ==> r == members
  {
    if members == [] then []
    else (if ValidMember(members[0]) then [members[0]] else []) + SanitizeMembers(members[1..])
  }
}
