/** The persisted records of the user-management service and their
    column-tagged field layouts. */
module Model {
  import opened Common
  import opened Structs

  datatype User = User(
    uuid: string, id: int, username: string, email: string,
    status: int, avatar: string, token: string, refreshToken: string)

  const ZeroUser: User := User("", 0, "", "", 0, "", "", "")

  datatype UserStats = UserStats(userId: int, lastLogin: int, loginCount: int)

  datatype UserWithStats = UserWithStats(user: User, stats: Option<UserStats>)

  function Field(name: string, tags: Tags, kind: Kind): FieldDecl
  {
    FieldDecl(name, tags, kind, false, true)
  }

  /** model.User: six `db`-tagged columns and two response-only fields. */
  const UserDecls: seq<FieldDecl> := [
    Field("UUID", map["json" := "uuid", "db" := "uuid"], KString),
    Field("ID", map["json" := "id", "db" := "id"], KInt64),
    Field("Username", map["json" := "username", "db" := "username"], KString),
    Field("Email", map["json" := "email", "db" := "email"], KString),
    Field("Status", map["json" := "status", "db" := "status"], KInt),
    Field("Avatar", map["json" := "avatar", "db" := "avatar"], KString),
    Field("Token", map["json" := "token"], KString),
    Field("RefreshToken", map["json" := "refresh_token"], KString)
  ]

  /** The shape facts the scanner relies on: eight exported fields, the
      first six tagged with their column names. */
  lemma UserDeclsShape()
    ensures |UserDecls| == 8
    ensures forall i :: 0 <= i < 8 ==> UserDecls[i].exported && !UserDecls[i].embedded
    ensures UserDecls[0].kind == KString && UserDecls[1].kind == KInt64 && UserDecls[2].kind == KString
    ensures UserDecls[3].kind == KString && UserDecls[4].kind == KInt && UserDecls[5].kind == KString
  {
  }

  /** The `db` tag of each User field, in declaration order ("" = none). */
  const UserColumns: seq<string> := ["uuid", "id", "username", "email", "status", "avatar", "", ""]

  lemma UserDbTags()
    ensures forall i :: 0 <= i < 8 ==> Tag(UserDecls[i].tags, "db") == UserColumns[i]
  {
    assert Tag(UserDecls[0].tags, "db") == "uuid";
    assert Tag(UserDecls[1].tags, "db") == "id";
    assert Tag(UserDecls[2].tags, "db") == "username";
    assert Tag(UserDecls[3].tags, "db") == "email";
    assert Tag(UserDecls[4].tags, "db") == "status";
    assert Tag(UserDecls[5].tags, "db") == "avatar";
    assert Tag(UserDecls[6].tags, "db") == "";
    assert Tag(UserDecls[7].tags, "db") == "";
  }

  /** model.UserStats */
  const UserStatsDecls: seq<FieldDecl> := [
    Field("UserID", map["json" := "user_id", "db" := "user_id"], KInt64),
    Field("LastLogin", map["json" := "last_login", "db" := "last_login"], KTime),
    Field("LoginCount", map["json" := "login_count", "db" := "login_count"], KInt)
  ]

  function StringAt(vs: seq<Value>, i: nat): string
  {
    if i < |vs| && vs[i].VString? then vs[i].s else ""
  }

  function IntAt(vs: seq<Value>, i: nat): int
  {
    if i < |vs| && vs[i].VInt? then vs[i].i else 0
  }

  /** Reads a User back from its field values in UserDecls order. */
  function UserOf(vs: seq<Value>): User
  {
    User(StringAt(vs, 0), IntAt(vs, 1), StringAt(vs, 2), StringAt(vs, 3),
         IntAt(vs, 4), StringAt(vs, 5), StringAt(vs, 6), StringAt(vs, 7))
  }

  /** The zero record of UserDecls reads back as the zero User. */
  lemma ZeroRecordIsZeroUser()
    ensures UserOf(ZeroRecord(UserDecls)) == ZeroUser
  {
  }
}
