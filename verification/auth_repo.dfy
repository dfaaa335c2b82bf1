/** The credential check and the sign-up record. The database lookup, the
    driver's conversions, bcrypt's hash and compare, the UUID and the
    insert are oracles; the row is scanned with the model's Scanner. */
module AuthRepo {
  import opened Common
  import opened Structs
  import opened Model
  import Scanner

  const InvalidCredentials: Error := Text("invalid credentials")

  /** The columns the login query selects. */
  const LoginColumns: seq<string> := ["uuid", "id", "username", "email", "status", "password"]

  const PasswordDecl: FieldDecl := Field("Password", map["db" := "password"], KString)

  /** The scan target `struct{ model.User; Password string }`: an untagged
      embedded User followed by the tagged password hash. */
  const LoginRowDecls: seq<FieldDecl> := [FieldDecl("User", map[], KStruct(UserDecls), true, true), PasswordDecl]

  /** The same record with the embedded User's fields in its place. */
  const LoginFlatDecls: seq<FieldDecl> := UserDecls + [PasswordDecl]

  function FieldsOf(v: Value): seq<Value>
  {
    if v.VStruct? then v.fields else []
  }

  function StringOf(v: Value): string
  {
    if v.VString? then v.s else ""
  }

  function IntOf(v: Value): int
  {
    if v.VInt? then v.i else 0
  }

  /** The error cascade shared by both definitions: a missing row reads as
      bad credentials, any other error passes through. */
  function LookupError(e: Error): (r: Error)
    ensures e == NoRows ==> r == InvalidCredentials
    ensures e != NoRows ==> r == e
  {
    if e == NoRows then InvalidCredentials else e
  }

  /** Every field of the two scan targets is exported. */
  lemma TargetsExported()
    ensures |LoginRowDecls| == 2 && forall i :: 0 <= i < 2 ==> LoginRowDecls[i].exported
    ensures |LoginFlatDecls| == 9 && forall i :: 0 <= i < 9 ==> LoginFlatDecls[i].exported
  {
    UserDeclsShape();
  }

  /** The scan of the login row into the record as declared. */
  function ScanAsDeclared(rows: Scanner.Rows, convert: Scanner.Convert): (s: Scanner.Scanned)
    ensures s.Scanned? && s.dst.StructPtr? && |s.dst.rec| == 2
  {
    TargetsExported();
    Scanner.Scan(rows, Scanner.StructPtr(LoginRowDecls, ZeroRecord(LoginRowDecls)), convert)
  }

  /** The scan of the login row into the record with User promoted. */
  function ScanPromoted(rows: Scanner.Rows, convert: Scanner.Convert): (s: Scanner.Scanned)
    ensures s.Scanned? && s.dst.StructPtr? && |s.dst.rec| == 9
  {
    TargetsExported();
    Scanner.Scan(rows, Scanner.StructPtr(LoginFlatDecls, ZeroRecord(LoginFlatDecls)), convert)
  }

  /** Login as written: the plan sees only the record's top-level fields. A
      missing row and a password mismatch give the same error. */
  function Login(email: string, password: string, lookup: string -> Result<Scanner.Rows>,
                 convert: Scanner.Convert, compare: (string, string) -> bool): (r: Result<User>)
    ensures lookup(email).Err? ==> r == Err(LookupError(lookup(email).error))
    ensures lookup(email).Ok? ==> var s := ScanAsDeclared(lookup(email).value, convert);
      && (s.err.Some? ==> r == Err(LookupError(s.err.value)))
      && (s.err.None? ==> (r.Ok? <==> compare(StringOf(s.dst.rec[1]), password)))
      && (s.err.None? && r.Err? ==> r == Err(InvalidCredentials))
  {
    match lookup(email)
    case Err(e) => Err(LookupError(e))
    case Ok(rows) =>
      var s := ScanAsDeclared(rows, convert);
      if s.err.Some? then Err(LookupError(s.err.value))
      else if !compare(StringOf(s.dst.rec[1]), password) then Err(InvalidCredentials)
      else Ok(UserOf(FieldsOf(s.dst.rec[0])))
  }

  /** The record with the embedded User promoted, as Go's own field
      promotion presents it: UserDecls followed by the password. */
  lemma LoginRowFlattened()
    ensures Scanner.Flatten(LoginRowDecls) == LoginFlatDecls
  {
    assert Scanner.Promoted(LoginRowDecls[0]);
    assert LoginRowDecls[1..] == [PasswordDecl];
    assert Scanner.Flatten([PasswordDecl]) == [PasswordDecl] + Scanner.Flatten([]);
  }

  /** Login as evidently intended: the row is scanned into the flattened
      record, so the User's tagged columns reach the User. The error
      cascade is unchanged. */
  function LoginFixed(email: string, password: string, lookup: string -> Result<Scanner.Rows>,
                      convert: Scanner.Convert, compare: (string, string) -> bool): (r: Result<User>)
    ensures lookup(email).Err? ==> r == Err(LookupError(lookup(email).error))
    ensures lookup(email).Ok? ==> var s := ScanPromoted(lookup(email).value, convert);
      && (s.err.Some? ==> r == Err(LookupError(s.err.value)))
      && (s.err.None? ==> (r.Ok? <==> compare(StringOf(s.dst.rec[8]), password)))
      && (s.err.None? && r.Err? ==> r == Err(InvalidCredentials))
  {
    match lookup(email)
    case Err(e) => Err(LookupError(e))
    case Ok(rows) =>
      var s := ScanPromoted(rows, convert);
      if s.err.Some? then Err(LookupError(s.err.value))
      else if !compare(StringOf(s.dst.rec[8]), password) then Err(InvalidCredentials)
      else Ok(UserOf(s.dst.rec[..8]))
  }

  /** As written, a successful login always yields the zero User, whatever
      the database returns: no column is ever planned into the untagged
      embedded field. */
  lemma LoginLosesUser(email: string, password: string, lookup: string -> Result<Scanner.Rows>,
                       convert: Scanner.Convert, compare: (string, string) -> bool)
    ensures Login(email, password, lookup, convert, compare).Ok? ==>
              Login(email, password, lookup, convert, compare).value == ZeroUser
  {
    if Login(email, password, lookup, convert, compare).Ok? {
      var rows := lookup(email).value;
      var columns := rows.columns.value;
      var plan := Scanner.BuildPlan(LoginRowDecls, columns);
      assert Scanner.DbTag(LoginRowDecls[0]) == "";
      assert forall c :: 0 <= c < |plan| ==> plan[c] != 0;
      assert |rows.data[0]| == |plan| by {
        var it := Scanner.ScanItem(LoginRowDecls, ZeroRecord(LoginRowDecls), plan, columns, rows.data[0], convert);
        assert it.1.None?;
      }
      Scanner.RowIntoFrame(LoginRowDecls, ZeroRecord(LoginRowDecls), plan, columns, rows.data[0], convert, 0, 0);
      ZeroRecordIsZeroUser();
    }
  }

  /** The corrected plan for the query's columns reaches the five User
      columns and the password. */
  lemma PromotedPlan()
    ensures Scanner.BuildPlan(LoginFlatDecls, LoginColumns) == [0, 1, 2, 3, 4, 8]
  {
    var want := [0, 1, 2, 3, 4, 8];
    forall c | 0 <= c < 6 ensures Scanner.BuildPlan(LoginFlatDecls, LoginColumns)[c] == want[c] {
      PromotedPlanEntry(c);
    }
  }

  lemma PromotedPlanEntry(c: int)
    requires 0 <= c < 6
    ensures Scanner.BuildPlan(LoginFlatDecls, LoginColumns)[c] == [0, 1, 2, 3, 4, 8][c]
  {
    var tags: seq<string> := ["uuid", "id", "username", "email", "status", "avatar", "", "", "password"];
    var cols: seq<string> := ["uuid", "id", "username", "email", "status", "password"];
    FlatTags();
    assert tags == UserColumns + ["password"];
    assert cols == LoginColumns;
    var w := [0, 1, 2, 3, 4, 8][c];
    assert forall j :: 0 <= j < |tags| && j != w ==> tags[j] != cols[c];
    PlanEntry(LoginFlatDecls, tags, cols, c, w);
  }

  /** The `db` tags of the promoted record. */
  lemma FlatTags()
    ensures |LoginFlatDecls| == 9
    ensures forall j :: 0 <= j < 9 ==> Scanner.DbTag(LoginFlatDecls[j]) == (UserColumns + ["password"])[j]
  {
    UserDbTags();
    assert forall j :: 0 <= j < 8 ==> LoginFlatDecls[j] == UserDecls[j];
    assert LoginFlatDecls[8] == PasswordDecl;
    assert Tag(PasswordDecl.tags, "db") == "password";
  }

  /** A column whose name is carried by exactly one field is planned into
      that field. */
  lemma PlanEntry(fields: seq<FieldDecl>, tags: seq<string>, columns: seq<string>, c: int, w: int)
    requires |tags| == |fields| && forall j :: 0 <= j < |fields| ==> Scanner.DbTag(fields[j]) == tags[j]
    requires 0 <= c < |columns| && 0 <= w < |fields| && columns[c] != ""
    requires tags[w] == columns[c] && forall j :: 0 <= j < |tags| && j != w ==> tags[j] != columns[c]
    ensures Scanner.BuildPlan(fields, columns)[c] == w
  {
    var plan := Scanner.BuildPlan(fields, columns);
    assert Scanner.DbTag(fields[w]) == columns[c];
  }

  /** The written plan for the query's columns reaches the password only. */
  lemma DeclaredPlan()
    ensures Scanner.BuildPlan(LoginRowDecls, LoginColumns) == [-1, -1, -1, -1, -1, 1]
  {
    var plan := Scanner.BuildPlan(LoginRowDecls, LoginColumns);
    forall c | 0 <= c < 5 ensures plan[c] == -1 {
      assert forall j :: 0 <= j < 2 ==> Scanner.DbTag(LoginRowDecls[j]) != LoginColumns[c];
    }
  }

  /** The promoted scan of a row under the query's columns. */
  lemma PromotedScan(rows: Scanner.Rows, convert: Scanner.Convert)
    requires rows.columns == Ok(LoginColumns) && |rows.data| > 0 && |rows.data[0]| == 6
    ensures ScanPromoted(rows, convert)
         == Scanner.Scanned(Scanner.StructPtr(LoginFlatDecls, Scanner.RowInto(LoginFlatDecls, ZeroRecord(LoginFlatDecls),
              [0, 1, 2, 3, 4, 8], LoginColumns, rows.data[0], convert, 0).0),
            Scanner.RowInto(LoginFlatDecls, ZeroRecord(LoginFlatDecls), [0, 1, 2, 3, 4, 8], LoginColumns,
              rows.data[0], convert, 0).1)
  {
    PromotedPlan();
    TargetsExported();
  }

  /** The declared scan of a row under the query's columns. */
  lemma DeclaredScan(rows: Scanner.Rows, convert: Scanner.Convert)
    requires rows.columns == Ok(LoginColumns) && |rows.data| > 0 && |rows.data[0]| == 6
    ensures ScanAsDeclared(rows, convert)
         == Scanner.Scanned(Scanner.StructPtr(LoginRowDecls, Scanner.RowInto(LoginRowDecls, ZeroRecord(LoginRowDecls),
              [-1, -1, -1, -1, -1, 1], LoginColumns, rows.data[0], convert, 0).0),
            Scanner.RowInto(LoginRowDecls, ZeroRecord(LoginRowDecls), [-1, -1, -1, -1, -1, 1], LoginColumns,
              rows.data[0], convert, 0).1)
  {
    DeclaredPlan();
    TargetsExported();
  }

  /** The promoted record after scanning a row that converts. */
  lemma PromotedRecord(row: seq<Scanner.Cell>, convert: Scanner.Convert)
    requires |row| == 6
    requires convert(row[0], KString).Ok? && convert(row[1], KInt64).Ok? && convert(row[2], KString).Ok?
    requires convert(row[3], KString).Ok? && convert(row[4], KInt).Ok? && convert(row[5], KString).Ok?
    ensures var r := Scanner.RowInto(LoginFlatDecls, ZeroRecord(LoginFlatDecls), [0, 1, 2, 3, 4, 8],
                                     LoginColumns, row, convert, 0);
      && r.1.None? && |r.0| == 9
      && r.0[0] == convert(row[0], KString).value && r.0[1] == convert(row[1], KInt64).value
      && r.0[2] == convert(row[2], KString).value && r.0[3] == convert(row[3], KString).value
      && r.0[4] == convert(row[4], KInt).value && r.0[8] == convert(row[5], KString).value
      && r.0[5] == VString("") && r.0[6] == VString("") && r.0[7] == VString("")
  {
    var plan := [0, 1, 2, 3, 4, 8];
    var zero := ZeroRecord(LoginFlatDecls);
    TargetsExported();
    UserDeclsShape();
    assert forall j :: 0 <= j < 8 ==> LoginFlatDecls[j] == UserDecls[j];
    assert LoginFlatDecls[8] == PasswordDecl;
    assert forall c :: 0 <= c < 6 && plan[c] != -1 ==> convert(row[c], LoginFlatDecls[plan[c]].kind).Ok?;
    Scanner.RowIntoSucceeds(LoginFlatDecls, zero, plan, LoginColumns, row, convert, 0);
    var rec := Scanner.RowInto(LoginFlatDecls, zero, plan, LoginColumns, row, convert, 0).0;
    forall c | 0 <= c < 6 ensures rec[plan[c]] == convert(row[c], LoginFlatDecls[plan[c]].kind).value {
      Scanner.RowIntoAssigns(LoginFlatDecls, zero, plan, LoginColumns, row, convert, 0, c);
    }
    forall j | 5 <= j < 8 ensures rec[j] == zero[j] {
      Scanner.RowIntoFrame(LoginFlatDecls, zero, plan, LoginColumns, row, convert, 0, j);
    }
  }

  /** With the query's six columns and a first row whose cells convert,
      the corrected Login answers the row's User (avatar and tokens are
      not selected, so they stay empty). */
  lemma LoginFixedReadsRow(email: string, password: string, lookup: string -> Result<Scanner.Rows>,
                           convert: Scanner.Convert, compare: (string, string) -> bool,
                           row: seq<Scanner.Cell>, more: seq<seq<Scanner.Cell>>, iterErr: Option<Error>)
    requires lookup(email) == Ok(Scanner.Rows(Ok(LoginColumns), [row] + more, iterErr))
    requires |row| == 6
    requires convert(row[0], KString).Ok? && convert(row[1], KInt64).Ok? && convert(row[2], KString).Ok?
    requires convert(row[3], KString).Ok? && convert(row[4], KInt).Ok? && convert(row[5], KString).Ok?
    requires compare(StringOf(convert(row[5], KString).value), password)
    ensures LoginFixed(email, password, lookup, convert, compare)
         == Ok(User(StringOf(convert(row[0], KString).value), IntOf(convert(row[1], KInt64).value),
                    StringOf(convert(row[2], KString).value), StringOf(convert(row[3], KString).value),
                    IntOf(convert(row[4], KInt).value), "", "", ""))
  {
    var rows := lookup(email).value;
    assert rows.data[0] == row;
    PromotedScan(rows, convert);
    PromotedRecord(row, convert);
    var sc := ScanPromoted(rows, convert);
    var rec := sc.dst.rec;
    assert sc.err.None? && compare(StringOf(rec[8]), password);
    assert LoginFixed(email, password, lookup, convert, compare) == Ok(UserOf(rec[..8]));
    var u := rec[..8];
    assert |u| == 8 && forall j :: 0 <= j < 8 ==> u[j] == rec[j];
    assert UserOf(u) == User(StringOf(rec[0]), IntOf(rec[1]), StringOf(rec[2]), StringOf(rec[3]),
                             IntOf(rec[4]), StringOf(rec[5]), StringOf(rec[6]), StringOf(rec[7]));
  }

  /** On the same input the written Login accepts the same password and
      answers the zero User. */
  lemma LoginAsWrittenDropsRow(email: string, password: string, lookup: string -> Result<Scanner.Rows>,
                               convert: Scanner.Convert, compare: (string, string) -> bool,
                               row: seq<Scanner.Cell>, more: seq<seq<Scanner.Cell>>, iterErr: Option<Error>)
    requires lookup(email) == Ok(Scanner.Rows(Ok(LoginColumns), [row] + more, iterErr))
    requires |row| == 6 && convert(row[5], KString).Ok?
    requires compare(StringOf(convert(row[5], KString).value), password)
    ensures Login(email, password, lookup, convert, compare) == Ok(ZeroUser)
  {
    var rows := lookup(email).value;
    assert rows.data[0] == row;
    DeclaredScan(rows, convert);
    DeclaredRecord(row, convert);
    LoginLosesUser(email, password, lookup, convert, compare);
  }

  /** The declared record after scanning such a row: only the password
      is assigned. */
  lemma DeclaredRecord(row: seq<Scanner.Cell>, convert: Scanner.Convert)
    requires |row| == 6 && convert(row[5], KString).Ok?
    ensures var r := Scanner.RowInto(LoginRowDecls, ZeroRecord(LoginRowDecls), [-1, -1, -1, -1, -1, 1],
                                     LoginColumns, row, convert, 0);
      r.1.None? && |r.0| == 2 && r.0[1] == convert(row[5], KString).value
  {
    var plan := [-1, -1, -1, -1, -1, 1];
    var zero := ZeroRecord(LoginRowDecls);
    assert LoginRowDecls[1].kind == KString;
    Scanner.RowIntoSucceeds(LoginRowDecls, zero, plan, LoginColumns, row, convert, 0);
    Scanner.RowIntoAssigns(LoginRowDecls, zero, plan, LoginColumns, row, convert, 0, 5);
  }

  /** SignUp: hash, insert (uuid, username, email, hash, avatar), and answer
      the new User with the insert id and status 1. */
  function SignUp(username: string, email: string, password: string, avatar: string,
                  hash: string -> Result<string>, uuid: string, insert: seq<string> -> Result<int>)
    : (r: Result<User>)
    ensures hash(password).Err? ==> r == Err(hash(password).error)
    ensures hash(password).Ok? && insert([uuid, username, email, hash(password).value, avatar]).Err? ==>
              r == Err(insert([uuid, username, email, hash(password).value, avatar]).error)
    ensures r.Ok? ==>
      && hash(password).Ok?
      && insert([uuid, username, email, hash(password).value, avatar]) == Ok(r.value.id)
      && r.value.uuid == uuid && r.value.username == username && r.value.email == email
      && r.value.avatar == avatar && r.value.status == 1
      && r.value.token == "" && r.value.refreshToken == ""
  {
    match hash(password)
    case Err(e) => Err(e)
    case Ok(h) =>
      match insert([uuid, username, email, h, avatar])
      case Err(e) => Err(e)
      case Ok(id) => Ok(User(uuid, id, username, email, 1, avatar, "", ""))
  }

  /** The password hash never reaches the caller: the answer depends on
      the hash only through the insert's outcome. */
  lemma SignUpHidesHash(username: string, email: string, password: string, avatar: string,
                        h1: string -> Result<string>, h2: string -> Result<string>, uuid: string,
                        insert: seq<string> -> Result<int>)
    requires h1(password).Ok? && h2(password).Ok?
    requires insert([uuid, username, email, h1(password).value, avatar])
          == insert([uuid, username, email, h2(password).value, avatar])
    ensures SignUp(username, email, password, avatar, h1, uuid, insert)
         == SignUp(username, email, password, avatar, h2, uuid, insert)
  {
  }
}
