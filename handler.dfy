/** The sync cycles of app/handlers/handler.py: fetch and validate a
    collection, replace the model's table with it row by row, then build the
    sheet (a header row and one row per record) and report the count. */
module Handler {
  import opened Results
  import opened Json
  import S = Schemas
  import U = Utils
  import opened Models
  import opened Dao

  // ---------------------------------------------------------------------
  // Rows built from validated records
  // ---------------------------------------------------------------------

  /** `Post(user_id=item.user_id, id=item.id, ...)`: a flat record is
      stored as one row keyed by its id, holding every field of the record
      (reading the row back gives the record). */
  function PostRowsOf(p: S.Post): (r: seq<Row>)
    ensures |r| == 1 && TableOf(r[0]) == Posts && Key(r[0]) == p.id
    ensures r[0].OfPost? && PostOf(r[0].post) == p
  {
    [OfPost(PostRow(p.id, p.userId, p.title, p.body))]
  }

  /** The record a stored post row holds. */
  function PostOf(row: PostRow): S.Post
  {
    S.Post(row.userId, row.id, row.title, row.body)
  }

  function CommentRowsOf(c: S.Comment): (r: seq<Row>)
    ensures |r| == 1 && TableOf(r[0]) == Comments && Key(r[0]) == c.id
    ensures r[0].OfComment? && CommentOf(r[0].comment) == c
  {
    [OfComment(CommentRow(c.id, c.postId, c.name, c.email, c.body))]
  }

  function CommentOf(row: CommentRow): S.Comment
  {
    S.Comment(row.postId, row.id, row.name, row.email, row.body)
  }

  function PhotoRowsOf(p: S.Photo): (r: seq<Row>)
    ensures |r| == 1 && TableOf(r[0]) == Photos && Key(r[0]) == p.id
    ensures r[0].OfPhoto? && PhotoOf(r[0].photo) == p
  {
    [OfPhoto(PhotoRow(p.id, p.albumId, p.title, p.url, p.thumbnailUrl))]
  }

  function PhotoOf(row: PhotoRow): S.Photo
  {
    S.Photo(row.albumId, row.id, row.title, row.url, row.thumbnailUrl)
  }

  function AlbumRowsOf(a: S.Album): (r: seq<Row>)
    ensures |r| == 1 && TableOf(r[0]) == Albums && Key(r[0]) == a.id
    ensures r[0].OfAlbum? && AlbumOf(r[0].album) == a
  {
    [OfAlbum(AlbumRow(a.id, a.userId, a.title))]
  }

  function AlbumOf(row: AlbumRow): S.Album
  {
    S.Album(row.userId, row.id, row.title)
  }

  function TodoRowsOf(t: S.Todo): (r: seq<Row>)
    ensures |r| == 1 && TableOf(r[0]) == Todos && Key(r[0]) == t.id
    ensures r[0].OfTodo? && TodoOf(r[0].todo) == t
  {
    [OfTodo(TodoRow(t.id, t.userId, t.title, t.completed))]
  }

  function TodoOf(row: TodoRow): S.Todo
  {
    S.Todo(row.userId, row.id, row.title, row.completed)
  }

  /** Every stored row is the row of the record it reads back as: the
      inverses lose nothing. */
  lemma RowsReadBack(p: PostRow, c: CommentRow, f: PhotoRow, a: AlbumRow, t: TodoRow)
    ensures PostRowsOf(PostOf(p)) == [OfPost(p)] && CommentRowsOf(CommentOf(c)) == [OfComment(c)]
    ensures PhotoRowsOf(PhotoOf(f)) == [OfPhoto(f)] && AlbumRowsOf(AlbumOf(a)) == [OfAlbum(a)]
    ensures TodoRowsOf(TodoOf(t)) == [OfTodo(t)]
  {
  }

  /** The four rows a validated user is split into. */
  datatype UserGraph = UserGraph(user: UserRow, address: AddressRow, company: CompanyRow, geo: GeoRow)

  /** All four rows carry the user's id as their key. */
  predicate KeyedByUser(g: UserGraph)
  {
    g.address.userId == g.user.id && g.company.userId == g.user.id && g.geo.addressUserId == g.user.id
  }

  /** The geo, address, company and user rows built for one validated user:
      every key is the user's id, every other field is copied. */
  function Decompose(u: S.User): (g: UserGraph)
    ensures KeyedByUser(g) && g.user.id == u.id
  {
    UserGraph(
      UserRow(u.id, u.name, u.username, u.email, u.phone, u.website),
      AddressRow(u.id, u.address.street, u.address.suite, u.address.city, u.address.zipcode),
      CompanyRow(u.id, u.company.name, u.company.catchPhrase, u.company.bs),
      GeoRow(u.id, u.address.geo.lat, u.address.geo.lng))
  }

  /** Joining the four rows on the user id. */
  function Join(g: UserGraph): S.User
  {
    S.User(g.user.id, g.user.name, g.user.username, g.user.email,
           S.Address(g.address.street, g.address.suite, g.address.city, g.address.zipcode,
                     S.Geo(g.geo.lat, g.geo.lng)),
           g.user.phone, g.user.website,
           S.Company(g.company.name, g.company.catchPhrase, g.company.bs))
  }

  /** Decomposition loses nothing: joining the rows gives the user back. */
  lemma JoinDecompose(u: S.User)
    ensures Join(Decompose(u)) == u
  {
  }

  /** And rows keyed alike are exactly the decomposition of their join. */
  lemma DecomposeJoin(g: UserGraph)
    requires KeyedByUser(g)
    ensures Decompose(Join(g)) == g
  {
  }

  /** The rows of a user in the order the store flushes them, the user row
      first. */
  function UserRowsOf(u: S.User): (r: seq<Row>)
    ensures |r| == 4 && r[0] == OfUser(Decompose(u).user) && Key(r[0]) == u.id && Leads(r, Users)
  {
    var g := Decompose(u);
    UserFlushOrder(g.user, g.address, g.company, g.geo)
  }

  // ---------------------------------------------------------------------
  // Sheet rows
  // ---------------------------------------------------------------------

  const PostHeader: seq<string> := ["user_id", "id", "title", "body"]
  const CommentHeader: seq<string> := ["post_id", "id", "name", "email", "body"]
  const PhotoHeader: seq<string> := ["album_id", "id", "title", "url", "thumbnail_url"]
  const AlbumHeader: seq<string> := ["user_id", "id", "title"]
  const TodoHeader: seq<string> := ["user_id", "id", "title", "completed"]
  const UserHeader: seq<string> :=
    ["id", "name", "username", "email",
     "address_street", "address_suite", "address_city", "address_zipcode",
     "geo_lat", "geo_lng",
     "phone", "website",
     "company_name", "company_catch_phrase", "company_bs"]

  function PostCells(p: S.Post): (r: seq<Json>)
    ensures |r| == |PostHeader|
  {
    [JInt(p.userId), JInt(p.id), JStr(p.title), JStr(p.body)]
  }

  function CommentCells(c: S.Comment): (r: seq<Json>)
    ensures |r| == |CommentHeader|
  {
    [JInt(c.postId), JInt(c.id), JStr(c.name), JStr(c.email), JStr(c.body)]
  }

  function PhotoCells(p: S.Photo): (r: seq<Json>)
    ensures |r| == |PhotoHeader|
  {
    [JInt(p.albumId), JInt(p.id), JStr(p.title), JStr(p.url), JStr(p.thumbnailUrl)]
  }

  function AlbumCells(a: S.Album): (r: seq<Json>)
    ensures |r| == |AlbumHeader|
  {
    [JInt(a.userId), JInt(a.id), JStr(a.title)]
  }

  function TodoCells(t: S.Todo): (r: seq<Json>)
    ensures |r| == |TodoHeader|
  {
    [JInt(t.userId), JInt(t.id), JStr(t.title), JBool(t.completed)]
  }

  function UserCells(u: S.User): (r: seq<Json>)
    ensures |r| == |UserHeader|
  {
    [JInt(u.id), JStr(u.name), JStr(u.username), JStr(u.email),
     JStr(u.address.street), JStr(u.address.suite), JStr(u.address.city), JStr(u.address.zipcode),
     JStr(u.address.geo.lat), JStr(u.address.geo.lng),
     JStr(u.phone), JStr(u.website),
     JStr(u.company.name), JStr(u.company.catchPhrase), JStr(u.company.bs)]
  }

  /** The value found by following a path of keys through nested objects. */
  function FieldAt(j: Json, path: seq<string>): Json
    decreases |path|
  {
    if path == [] then j else FieldAt(S.Field(j, path[0]), path[1..])
  }

  /** Where each user column comes from in the validated user. */
  const UserColumnPaths: seq<seq<string>> :=
    [["id"], ["name"], ["username"], ["email"],
     ["address", "street"], ["address", "suite"], ["address", "city"], ["address", "zipcode"],
     ["address", "geo", "lat"], ["address", "geo", "lng"],
     ["phone"], ["website"],
     ["company", "name"], ["company", "catch_phrase"], ["company", "bs"]]

  /** The header names as a row of cells. */
  function HeaderRow(header: seq<string>): (r: seq<Json>)
    ensures |r| == |header| && forall c :: 0 <= c < |header| ==> r[c] == JStr(header[c])
  {
    seq(|header|, c requires 0 <= c < |header| => JStr(header[c]))
  }

  /** `sheets_data.insert(0, headers)`: the header row followed by one row
      per record. */
  function Grid(header: seq<string>, body: seq<seq<Json>>): (g: seq<seq<Json>>)
    ensures |g| == |body| + 1 && g[0] == HeaderRow(header)
    ensures forall i :: 0 <= i < |body| ==> g[i + 1] == body[i]
  {
    [HeaderRow(header)] + body
  }

  /** Each post column holds the record's field named by its header. */
  lemma PostColumns(p: S.Post)
    ensures forall c :: 0 <= c < |PostHeader| ==> PostCells(p)[c] == S.Field(S.PostJson(p), PostHeader[c])
  {
    var o := S.PostJson(p).members;
    GetAt(o, 0); GetAt(o, 1); GetAt(o, 2); GetAt(o, 3);
  }

  lemma CommentColumns(c: S.Comment)
    ensures forall i :: 0 <= i < |CommentHeader| ==> CommentCells(c)[i] == S.Field(S.CommentJson(c), CommentHeader[i])
  {
    var o := S.CommentJson(c).members;
    GetAt(o, 0); GetAt(o, 1); GetAt(o, 2); GetAt(o, 3); GetAt(o, 4);
  }

  lemma PhotoColumns(p: S.Photo)
    ensures forall c :: 0 <= c < |PhotoHeader| ==> PhotoCells(p)[c] == S.Field(S.PhotoJson(p), PhotoHeader[c])
  {
    var o := S.PhotoJson(p).members;
    GetAt(o, 0); GetAt(o, 1); GetAt(o, 2); GetAt(o, 3); GetAt(o, 4);
  }

  lemma AlbumColumns(a: S.Album)
    ensures forall c :: 0 <= c < |AlbumHeader| ==> AlbumCells(a)[c] == S.Field(S.AlbumJson(a), AlbumHeader[c])
  {
    var o := S.AlbumJson(a).members;
    GetAt(o, 0); GetAt(o, 1); GetAt(o, 2);
  }

  lemma TodoColumns(t: S.Todo)
    ensures forall c :: 0 <= c < |TodoHeader| ==> TodoCells(t)[c] == S.Field(S.TodoJson(t), TodoHeader[c])
  {
    var o := S.TodoJson(t).members;
    GetAt(o, 0); GetAt(o, 1); GetAt(o, 2); GetAt(o, 3);
  }

  /** Following a one-, two- or three-key path. */
  lemma FieldAtOne(j: Json, a: string)
    ensures FieldAt(j, [a]) == S.Field(j, a)
  {
    assert [a][1..] == [];
  }

  lemma FieldAtTwo(j: Json, a: string, b: string)
    ensures FieldAt(j, [a, b]) == S.Field(S.Field(j, a), b)
  {
    assert [a, b][1..] == [b];
    FieldAtOne(S.Field(j, a), b);
  }

  lemma FieldAtThree(j: Json, a: string, b: string, c: string)
    ensures FieldAt(j, [a, b, c]) == S.Field(S.Field(S.Field(j, a), b), c)
  {
    assert [a, b, c][1..] == [b, c];
    FieldAtTwo(S.Field(j, a), b, c);
  }

  lemma UserFields(u: S.User)
    ensures var j := S.UserJson(u);
      S.Field(j, "id") == JInt(u.id) && S.Field(j, "name") == JStr(u.name) &&
      S.Field(j, "username") == JStr(u.username) && S.Field(j, "email") == JStr(u.email) &&
      S.Field(j, "address") == S.AddressJson(u.address) && S.Field(j, "phone") == JStr(u.phone) &&
      S.Field(j, "website") == JStr(u.website) && S.Field(j, "company") == S.CompanyJson(u.company)
  {
    var o := S.UserJson(u).members;
    GetAt(o, 0); GetAt(o, 1); GetAt(o, 2); GetAt(o, 3); GetAt(o, 4); GetAt(o, 5); GetAt(o, 6); GetAt(o, 7);
  }

  lemma AddressFields(a: S.Address)
    ensures var j := S.AddressJson(a);
      S.Field(j, "street") == JStr(a.street) && S.Field(j, "suite") == JStr(a.suite) &&
      S.Field(j, "city") == JStr(a.city) && S.Field(j, "zipcode") == JStr(a.zipcode) &&
      S.Field(j, "geo") == S.GeoJson(a.geo) &&
      S.Field(S.GeoJson(a.geo), "lat") == JStr(a.geo.lat) && S.Field(S.GeoJson(a.geo), "lng") == JStr(a.geo.lng)
  {
    var o := S.AddressJson(a).members;
    GetAt(o, 0); GetAt(o, 1); GetAt(o, 2); GetAt(o, 3); GetAt(o, 4);
    var g := S.GeoJson(a.geo).members;
    GetAt(g, 0); GetAt(g, 1);
  }

  lemma CompanyFields(m: S.Company)
    ensures var j := S.CompanyJson(m);
      S.Field(j, "name") == JStr(m.name) && S.Field(j, "catch_phrase") == JStr(m.catchPhrase) &&
      S.Field(j, "bs") == JStr(m.bs)
  {
    var o := S.CompanyJson(m).members;
    GetAt(o, 0); GetAt(o, 1); GetAt(o, 2);
  }

  /** Each user column holds the value at its path in the validated user:
      the address, geo and company columns are read from the nest. */
  lemma UserColumns(u: S.User)
    ensures |UserColumnPaths| == |UserHeader|
    ensures forall c :: 0 <= c < |UserHeader| ==> UserCells(u)[c] == FieldAt(S.UserJson(u), UserColumnPaths[c])
  {
    forall c | 0 <= c < 15 ensures UserCells(u)[c] == FieldAt(S.UserJson(u), UserColumnPaths[c]) {
      UserColumn(u, c);
    }
  }

  lemma UserColumn(u: S.User, c: nat)
    requires c < 15
    ensures UserCells(u)[c] == FieldAt(S.UserJson(u), UserColumnPaths[c])
  {
    if c < 4 {
      UserTopColumn(u, c);
    } else if c == 10 || c == 11 {
      UserContactColumn(u, c);
    } else if c < 8 {
      UserAddressColumn(u, c);
    } else if c < 10 {
      UserGeoColumn(u, c);
    } else {
      UserCompanyColumn(u, c);
    }
  }

  lemma UserTopColumn(u: S.User, c: nat)
    requires c < 4
    ensures UserCells(u)[c] == FieldAt(S.UserJson(u), UserColumnPaths[c])
  {
    var p := UserColumnPaths[c];
    assert p == [p[0]];
    UserFields(u);
    FieldAtOne(S.UserJson(u), p[0]);
  }

  lemma UserContactColumn(u: S.User, c: nat)
    requires c == 10 || c == 11
    ensures UserCells(u)[c] == FieldAt(S.UserJson(u), UserColumnPaths[c])
  {
    var j := S.UserJson(u);
    var k := if c == 10 then 5 else 6;
    GetAt(j.members, k);
    assert UserColumnPaths[c] == [j.members[k].key];
    FieldAtOne(j, j.members[k].key);
  }

  lemma UserAddressColumn(u: S.User, c: nat)
    requires 4 <= c < 8
    ensures UserCells(u)[c] == FieldAt(S.UserJson(u), UserColumnPaths[c])
  {
    var p := UserColumnPaths[c];
    assert p == [p[0], p[1]];
    UserFields(u);
    AddressFields(u.address);
    FieldAtTwo(S.UserJson(u), p[0], p[1]);
  }

  lemma UserGeoColumn(u: S.User, c: nat)
    requires 8 <= c < 10
    ensures UserCells(u)[c] == FieldAt(S.UserJson(u), UserColumnPaths[c])
  {
    var p := UserColumnPaths[c];
    assert p == [p[0], p[1], p[2]];
    UserFields(u);
    AddressFields(u.address);
    FieldAtThree(S.UserJson(u), p[0], p[1], p[2]);
  }

  lemma UserCompanyColumn(u: S.User, c: nat)
    requires 12 <= c < 15
    ensures UserCells(u)[c] == FieldAt(S.UserJson(u), UserColumnPaths[c])
  {
    var p := UserColumnPaths[c];
    assert p == [p[0], p[1]];
    UserFields(u);
    CompanyFields(u.company);
    FieldAtTwo(S.UserJson(u), p[0], p[1]);
  }

  // ---------------------------------------------------------------------
  // The sync cycle
  // ---------------------------------------------------------------------

  /** No key occurs twice. */
  predicate Distinct(ks: seq<int>)
  {
    forall i, j :: 0 <= i < j < |ks| ==> ks[i] != ks[j]
  }

  /** The position of the first key that repeats an earlier one, or `|ks|`
      when none does: how far a run of inserts into an emptied table gets
      before the primary key refuses one. */
  function FirstRepeat(ks: seq<int>): (n: nat)
    ensures n <= |ks| && Distinct(ks[..n])
    ensures n < |ks| ==> ks[n] in ks[..n]
    decreases |ks|
  {
    if ks == [] then 0
    else
      var init := ks[..|ks| - 1];
      var m := FirstRepeat(init);
      assert init[..m] == ks[..m];
      if m < |init| then m
      else if ks[|ks| - 1] in init then |init|
      else |ks|
  }

  /** Walking the keys in order, a key repeats an earlier one first at
      `FirstRepeat`. */
  lemma FirstRepeatAt(ks: seq<int>, i: nat)
    requires i < |ks| && i <= FirstRepeat(ks)
    ensures ks[i] in ks[..i] <==> i == FirstRepeat(ks)
  {
    var n := FirstRepeat(ks);
    if i < n {
      NotEarlier(ks, n, i);
    }
  }

  /** In a run of distinct keys, no key occurs before its own position. */
  lemma NotEarlier(ks: seq<int>, n: nat, i: nat)
    requires i < n <= |ks| && Distinct(ks[..n])
    ensures ks[i] !in ks[..i]
  {
    forall j | 0 <= j < i ensures ks[j] != ks[i] {
      assert ks[..n][j] == ks[j] && ks[..n][i] == ks[i];
    }
  }

  /** The rows a run of records is stored as, record after record. */
  function RowsOfAll<T>(recs: seq<T>, rowsOf: T -> seq<Row>): seq<Row>
    decreases |recs|
  {
    if recs == [] then [] else RowsOfAll(recs[..|recs| - 1], rowsOf) + rowsOf(recs[|recs| - 1])
  }

  /** What the bot answers: the number of records written, or the error
      message. */
  datatype Reply = Done(count: nat) | Failed

  /** The rows handed to the sheet writer, under the worksheet's title. */
  datatype Sheet = Sheet(title: string, rows: seq<seq<Json>>)

  /** The reply, the sheet written (if any), and the store afterwards. */
  datatype Outcome = Outcome(reply: Reply, sheet: Option<Sheet>, tables: Tables)

  /** One pass of a `fetch_*_callback` over the store `db`: fetch and
      validate, delete the model's rows (with their cascade), insert the
      records' rows one record at a time until a primary key refuses one,
      and only if none is refused, write the sheet and report the count.
      `rowsOf` gives the rows a record is stored as. */
  function Synced<T(!new)>(db: Tables, model: Table, fetched: Result<seq<T>, U.FetchError<S.Violation>>,
                     rowsOf: T -> seq<Row>, cells: T -> seq<Json>,
                     header: seq<string>, title: string): (o: Outcome)
    requires WellKeyed(db) && forall x :: rowsOf(x) != []
    ensures fetched.Err? ==> o == Outcome(Failed, None, db)
    ensures o.reply.Done? <==> fetched.Ok? && Distinct(KeysOf(fetched.value, rowsOf))
    ensures o.reply.Done? ==>
      && o.reply.count == |fetched.value|
      && o.sheet.Some? && o.sheet.value.title == title
      && |o.sheet.value.rows| == |fetched.value| + 1 && o.sheet.value.rows[0] == HeaderRow(header)
      && forall i :: 0 <= i < |fetched.value| ==> o.sheet.value.rows[i + 1] == cells(fetched.value[i])
    ensures o.reply.Failed? ==> o.sheet.None?
  {
    match fetched
    case Err(_) => Outcome(Failed, None, db)
    case Ok(recs) =>
      var ks := KeysOf(recs, rowsOf);
      var n := FirstRepeat(ks);
      var cleared := RemoveKeys(db, Cascade(model), db[model].Keys);
      var after := Stored(cleared, RowsOfAll(recs[..n], rowsOf));
      assert cleared[model] == map[];
      if n == |recs| then
        assert ks[..n] == ks;
        Outcome(Done(|recs|), Some(Sheet(title, Grid(header, CellsOf(recs, cells)))), after)
      else
        Outcome(Failed, None, after)
  }

  /** The primary keys of a run of records, in order: a record's key is
      that of its first row. */
  function KeysOf<T(!new)>(recs: seq<T>, rowsOf: T -> seq<Row>): seq<int>
    requires forall x :: rowsOf(x) != []
  {
    seq(|recs|, i requires 0 <= i < |recs| => Key(rowsOf(recs[i])[0]))
  }

  /** `[[item.a, item.b, ...] for item in validated_data]`: one sheet row
      per record, in fetch order. */
  function CellsOf<T>(recs: seq<T>, cells: T -> seq<Json>): (r: seq<seq<Json>>)
    ensures |r| == |recs| && forall i :: 0 <= i < |recs| ==> r[i] == cells(recs[i])
  {
    seq(|recs|, i requires 0 <= i < |recs| => cells(recs[i]))
  }

  /** The models whose rows nothing else refers to: a record is one row and
      deleting the model's rows reaches no other table. */
  predicate Flat(t: Table)
  {
    t.Posts? || t.Comments? || t.Photos? || t.Albums? || t.Todos?
  }

  /** Storing one more record's rows is inserting them after the others. */
  lemma RowsOfAllStep<T>(recs: seq<T>, rowsOf: T -> seq<Row>, i: nat)
    requires i < |recs|
    ensures RowsOfAll(recs[..i + 1], rowsOf) == RowsOfAll(recs[..i], rowsOf) + rowsOf(recs[i])
  {
    assert recs[..i + 1][..i] == recs[..i];
  }

  /** Storing the rows of record `i` after those of the records before
      it. */
  lemma StoredNext<T>(db: Tables, recs: seq<T>, rowsOf: T -> seq<Row>, i: nat)
    requires WellKeyed(db) && i < |recs|
    ensures Stored(db, RowsOfAll(recs[..i + 1], rowsOf)) == Stored(Stored(db, RowsOfAll(recs[..i], rowsOf)), rowsOf(recs[i]))
  {
    RowsOfAllStep(recs, rowsOf, i);
    StoredAppend(db, RowsOfAll(recs[..i], rowsOf), rowsOf(recs[i]));
  }

  /** One more key in the prefix. */
  lemma PrefixStep(ks: seq<int>, i: nat)
    requires 0 < i <= |ks|
    ensures forall k :: k in ks[..i] <==> k in ks[..i - 1] || k == ks[i - 1]
  {
    assert ks[..i] == ks[..i - 1] + [ks[i - 1]];
  }

  /** The table holds exactly the keys `ks`. */
  ghost predicate HoldsKeys(table: map<int, Row>, ks: seq<int>)
  {
    forall k :: k in table <==> k in ks
  }

  /** A record's rows: the first is the model's row, the others belong to
      other tables. */
  predicate Leads(rows: seq<Row>, model: Table)
  {
    rows != [] && TableOf(rows[0]) == model && forall j :: 0 < j < |rows| ==> TableOf(rows[j]) != model
  }

  /** The only key such a record adds to the model's table is that of its
      first row. */
  lemma LeadKeys(rows: seq<Row>, model: Table)
    requires Leads(rows, model)
    ensures KeysIn(rows, model) == {Key(rows[0])}
  {
    forall k | k in KeysIn(rows, model) ensures k == Key(rows[0]) {
      var j :| 0 <= j < |rows| && TableOf(rows[j]) == model && Key(rows[j]) == k;
      assert j == 0;
    }
  }

  /** Before record `i` goes in, the keys in the model's table, which
      started empty, are those of the records before it. */
  lemma {:induction false} KeysSoFar<T(!new)>(db: Tables, model: Table, recs: seq<T>, rowsOf: T -> seq<Row>, i: nat)
    requires WellKeyed(db) && db[model] == map[] && i <= |recs|
    requires forall x :: rowsOf(x) != [] && Leads(rowsOf(x), model)
    ensures HoldsKeys(Stored(db, RowsOfAll(recs[..i], rowsOf))[model], KeysOf(recs, rowsOf)[..i])
  {
    if i > 0 {
      KeysSoFar(db, model, recs, rowsOf, i - 1);
      KeysSoFarStep(db, model, recs, rowsOf, i);
    } else {
      assert recs[..0] == [];
    }
  }

  lemma KeysSoFarStep<T(!new)>(db: Tables, model: Table, recs: seq<T>, rowsOf: T -> seq<Row>, i: nat)
    requires WellKeyed(db) && 0 < i <= |recs|
    requires Leads(rowsOf(recs[i - 1]), model)
    requires forall x :: rowsOf(x) != []
    requires HoldsKeys(Stored(db, RowsOfAll(recs[..i - 1], rowsOf))[model], KeysOf(recs, rowsOf)[..i - 1])
    ensures HoldsKeys(Stored(db, RowsOfAll(recs[..i], rowsOf))[model], KeysOf(recs, rowsOf)[..i])
  {
    var ks := KeysOf(recs, rowsOf);
    var prev := Stored(db, RowsOfAll(recs[..i - 1], rowsOf));
    var rows := rowsOf(recs[i - 1]);
    StoredNext(db, recs, rowsOf, i - 1);
    StoredKeys(prev, rows, model);
    LeadKeys(rows, model);
    assert Key(rows[0]) == ks[i - 1];
    PrefixStep(ks, i);
  }

  /** `for item in validated_data: await repository.create(...)`: insert
      each record's row in turn; the first row the store refuses raises, and
      the rows before it stay committed. */
  method CreateEach<T(!new)>(dao: BaseDao, recs: seq<T>, rowsOf: T -> seq<Row>) returns (ok: bool)
    requires dao.session.Valid() && dao.session.tables[dao.model] == map[]
    requires forall x :: |rowsOf(x)| == 1 && Leads(rowsOf(x), dao.model) && ParentTable(rowsOf(x)[0]).None?
    modifies dao.session
    ensures dao.session.Valid()
    ensures var n := FirstRepeat(KeysOf(recs, rowsOf));
      && (ok <==> n == |recs|)
      && dao.session.tables == Stored(old(dao.session.tables), RowsOfAll(recs[..n], rowsOf))
  {
    ghost var ks := KeysOf(recs, rowsOf);
    ghost var n := FirstRepeat(ks);
    ghost var start := dao.session.tables;
    var i := 0;
    while i < |recs|
      invariant i <= n
      invariant dao.session.Valid()
      invariant dao.session.tables == Stored(start, RowsOfAll(recs[..i], rowsOf))
    {
      var entity := rowsOf(recs[i])[0];
      KeysSoFar(start, dao.model, recs, rowsOf, i);
      FirstRepeatAt(ks, i);
      var r := dao.Create(entity);
      if r.Err? {
        return false;
      }
      StoredNext(start, recs, rowsOf, i);
      StoredOne(Stored(start, RowsOfAll(recs[..i], rowsOf)), rowsOf(recs[i]));
      i := i + 1;
    }
    assert recs[..i] == recs[..n];
    return true;
  }

  /** The body of `fetch_posts_callback` and its four siblings, for the
      model of `dao`. The store ends as `Synced` says, and the reply and
      the sheet are its reply and sheet. */
  method SyncFlat<T(!new)>(dao: BaseDao, resp: U.Response, validate: Json -> Result<T, S.Violation>,
                          rowsOf: T -> seq<Row>, cells: T -> seq<Json>, header: seq<string>, title: string)
    returns (reply: Reply, sheet: Option<Sheet>)
    requires dao.session.Valid() && Flat(dao.model)
    requires forall x :: |rowsOf(x)| == 1 && TableOf(rowsOf(x)[0]) == dao.model
    modifies dao.session
    ensures dao.session.Valid()
    ensures var o := Synced(old(dao.session.tables), dao.model, U.FetchData(resp, validate), rowsOf, cells, header, title);
      reply == o.reply && sheet == o.sheet && dao.session.tables == o.tables
  {
    var fetched := U.FetchData(resp, validate);
    if fetched.Err? {
      return Failed, None;
    }
    var recs := fetched.value;
    dao.DeleteAll();
    var ok := CreateEach(dao, recs, rowsOf);
    if !ok {
      return Failed, None;
    }
    var rows := CellsOf(recs, cells);
    rows := [HeaderRow(header)] + rows;
    return Done(|recs|), Some(Sheet(title, rows));
  }

  /** The loop of `fetch_users_callback`: split each user into its geo,
      address, company and user rows and commit them together; the first
      user the store refuses raises, and the users before it stay
      committed. */
  method CreateUsers(dao: BaseDao, recs: seq<S.User>) returns (ok: bool)
    requires dao.model == Users && dao.session.Valid() && dao.session.tables[Users] == map[]
    modifies dao.session
    ensures dao.session.Valid()
    ensures var n := FirstRepeat(KeysOf(recs, UserRowsOf));
      && (ok <==> n == |recs|)
      && dao.session.tables == Stored(old(dao.session.tables), RowsOfAll(recs[..n], UserRowsOf))
  {
    ghost var ks := KeysOf(recs, UserRowsOf);
    ghost var n := FirstRepeat(ks);
    ghost var start := dao.session.tables;
    var i := 0;
    while i < |recs|
      invariant i <= n
      invariant dao.session.Valid()
      invariant dao.session.tables == Stored(start, RowsOfAll(recs[..i], UserRowsOf))
    {
      var g := Decompose(recs[i]);
      KeysSoFar(start, Users, recs, UserRowsOf, i);
      FirstRepeatAt(ks, i);
      ghost var before := dao.session.tables;
      if g.user.id in before[Users] {
        UserGraphRefused(before, g.user, g.address, g.company, g.geo);
      } else {
        UserGraphAccepted(before, g.user, g.address, g.company, g.geo);
      }
      var r := dao.CreateUser(g.user, g.address, g.company, g.geo);
      if r.Err? {
        return false;
      }
      StoredNext(start, recs, UserRowsOf, i);
      StoredFour(before, UserRowsOf(recs[i]));
      i := i + 1;
    }
    assert recs[..i] == recs[..n];
    return true;
  }

  /** `fetch_users_callback`: fetch and validate the users, delete every
      user (the delete cascades to addresses, companies and geos), store
      each user's four rows, then write the users sheet. */
  method FetchUsersCallback(dao: BaseDao, resp: U.Response) returns (reply: Reply, sheet: Option<Sheet>)
    requires dao.model == Users && dao.session.Valid()
    modifies dao.session
    ensures dao.session.Valid()
    ensures var o := Synced(old(dao.session.tables), Users, U.FetchData(resp, S.ValidateUser), UserRowsOf, UserCells, UserHeader, "Users");
      reply == o.reply && sheet == o.sheet && dao.session.tables == o.tables
  {
    var fetched := U.FetchData(resp, S.ValidateUser);
    if fetched.Err? {
      return Failed, None;
    }
    var recs := fetched.value;
    dao.DeleteAll();
    var ok := CreateUsers(dao, recs);
    if !ok {
      return Failed, None;
    }
    var rows := CellsOf(recs, UserCells);
    rows := [HeaderRow(UserHeader)] + rows;
    return Done(|recs|), Some(Sheet("Users", rows));
  }

  method FetchPostsCallback(dao: BaseDao, resp: U.Response) returns (reply: Reply, sheet: Option<Sheet>)
    requires dao.model == Posts && dao.session.Valid()
    modifies dao.session
    ensures dao.session.Valid()
    ensures var o := Synced(old(dao.session.tables), Posts, U.FetchData(resp, S.ValidatePost), PostRowsOf, PostCells, PostHeader, "Posts");
      reply == o.reply && sheet == o.sheet && dao.session.tables == o.tables
  {
    reply, sheet := SyncFlat(dao, resp, S.ValidatePost, PostRowsOf, PostCells, PostHeader, "Posts");
  }

  method FetchCommentsCallback(dao: BaseDao, resp: U.Response) returns (reply: Reply, sheet: Option<Sheet>)
    requires dao.model == Comments && dao.session.Valid()
    modifies dao.session
    ensures dao.session.Valid()
    ensures var o := Synced(old(dao.session.tables), Comments, U.FetchData(resp, S.ValidateComment), CommentRowsOf, CommentCells, CommentHeader, "Comments");
      reply == o.reply && sheet == o.sheet && dao.session.tables == o.tables
  {
    reply, sheet := SyncFlat(dao, resp, S.ValidateComment, CommentRowsOf, CommentCells, CommentHeader, "Comments");
  }

  method FetchPhotosCallback(dao: BaseDao, resp: U.Response) returns (reply: Reply, sheet: Option<Sheet>)
    requires dao.model == Photos && dao.session.Valid()
    modifies dao.session
    ensures dao.session.Valid()
    ensures var o := Synced(old(dao.session.tables), Photos, U.FetchData(resp, S.ValidatePhoto), PhotoRowsOf, PhotoCells, PhotoHeader, "Photos");
      reply == o.reply && sheet == o.sheet && dao.session.tables == o.tables
  {
    reply, sheet := SyncFlat(dao, resp, S.ValidatePhoto, PhotoRowsOf, PhotoCells, PhotoHeader, "Photos");
  }

  method FetchAlbumsCallback(dao: BaseDao, resp: U.Response) returns (reply: Reply, sheet: Option<Sheet>)
    requires dao.model == Albums && dao.session.Valid()
    modifies dao.session
    ensures dao.session.Valid()
    ensures var o := Synced(old(dao.session.tables), Albums, U.FetchData(resp, S.ValidateAlbum), AlbumRowsOf, AlbumCells, AlbumHeader, "Albums");
      reply == o.reply && sheet == o.sheet && dao.session.tables == o.tables
  {
    reply, sheet := SyncFlat(dao, resp, S.ValidateAlbum, AlbumRowsOf, AlbumCells, AlbumHeader, "Albums");
  }

  method FetchTodosCallback(dao: BaseDao, resp: U.Response) returns (reply: Reply, sheet: Option<Sheet>)
    requires dao.model == Todos && dao.session.Valid()
    modifies dao.session
    ensures dao.session.Valid()
    ensures var o := Synced(old(dao.session.tables), Todos, U.FetchData(resp, S.ValidateTodo), TodoRowsOf, TodoCells, TodoHeader, "Todos");
      reply == o.reply && sheet == o.sheet && dao.session.tables == o.tables
  {
    reply, sheet := SyncFlat(dao, resp, S.ValidateTodo, TodoRowsOf, TodoCells, TodoHeader, "Todos");
  }

  // ---------------------------------------------------------------------
  // What a sync leaves behind
  // ---------------------------------------------------------------------

  /** All rows of a record share its key. */
  predicate OneKey(rows: seq<Row>)
  {
    forall j :: 0 <= j < |rows| ==> Key(rows[j]) == Key(rows[0])
  }

  /** No two rows of a record go to the same table. */
  predicate DistinctTables(rows: seq<Row>)
  {
    forall j1, j2 :: 0 <= j1 < j2 < |rows| ==> TableOf(rows[j1]) != TableOf(rows[j2])
  }

  lemma KeysOfPrefix<T(!new)>(recs: seq<T>, rowsOf: T -> seq<Row>, m: nat)
    requires m <= |recs| && forall x :: rowsOf(x) != []
    ensures KeysOf(recs[..m], rowsOf) == KeysOf(recs, rowsOf)[..m]
  {
  }

  /** When no two records share a key, every row of every record is in its
      table under its key once all the records are stored. */
  lemma {:induction false} StoredRecords<T(!new)>(db: Tables, recs: seq<T>, rowsOf: T -> seq<Row>)
    requires WellKeyed(db)
    requires forall x :: rowsOf(x) != [] && OneKey(rowsOf(x)) && DistinctTables(rowsOf(x))
    requires Distinct(KeysOf(recs, rowsOf))
    ensures forall i, c :: 0 <= i < |recs| && 0 <= c < |rowsOf(recs[i])| ==>
      var r := rowsOf(recs[i])[c];
      Key(r) in Stored(db, RowsOfAll(recs, rowsOf))[TableOf(r)] && Stored(db, RowsOfAll(recs, rowsOf))[TableOf(r)][Key(r)] == r
    decreases |recs|
  {
    if recs != [] {
      var m := |recs| - 1;
      var init := recs[..m];
      var ks := KeysOf(recs, rowsOf);
      var last := rowsOf(recs[m]);
      KeysOfPrefix(recs, rowsOf, m);
      assert Distinct(KeysOf(init, rowsOf)) by {
        assert KeysOf(init, rowsOf) == ks[..m];
      }
      StoredRecords(db, init, rowsOf);
      var prev := Stored(db, RowsOfAll(init, rowsOf));
      assert Stored(db, RowsOfAll(recs, rowsOf)) == Stored(prev, last) by {
        StoredAppend(db, RowsOfAll(init, rowsOf), last);
      }
      forall i, c | 0 <= i < |recs| && 0 <= c < |rowsOf(recs[i])|
        ensures var r := rowsOf(recs[i])[c];
          Key(r) in Stored(prev, last)[TableOf(r)] && Stored(prev, last)[TableOf(r)][Key(r)] == r
      {
        var r := rowsOf(recs[i])[c];
        if i == m {
          StoredAt(prev, last, c);
        } else {
          assert init[i] == recs[i];
          assert ks[i] != ks[m];
          StoredKeeps(prev, last, TableOf(r), Key(r));
        }
      }
    }
  }

  /** Records none of whose rows go to table `t` give a run with no row
      for `t`. */
  lemma {:induction false} NoRowsIn<T(!new)>(recs: seq<T>, rowsOf: T -> seq<Row>, t: Table)
    requires forall x, c :: 0 <= c < |rowsOf(x)| ==> TableOf(rowsOf(x)[c]) != t
    ensures forall j :: 0 <= j < |RowsOfAll(recs, rowsOf)| ==> TableOf(RowsOfAll(recs, rowsOf)[j]) != t
    decreases |recs|
  {
    if recs != [] {
      NoRowsIn(recs[..|recs| - 1], rowsOf, t);
    }
  }

  /** A flat sync whose records have distinct ids replaces the model's
      table by exactly those records, each under its id, leaves every other
      table as it was, reports the number of records and writes the header
      row followed by one row per record. */
  lemma FlatReplaced<T(!new)>(db: Tables, model: Table, recs: seq<T>, rowsOf: T -> seq<Row>,
                              cells: T -> seq<Json>, header: seq<string>, title: string)
    requires WellKeyed(db) && Flat(model)
    requires forall x :: |rowsOf(x)| == 1 && Leads(rowsOf(x), model)
    requires Distinct(KeysOf(recs, rowsOf))
    ensures var o := Synced(db, model, Ok(recs), rowsOf, cells, header, title);
      && o.reply == Done(|recs|)
      && HoldsKeys(o.tables[model], KeysOf(recs, rowsOf))
      && (forall i :: 0 <= i < |recs| ==> o.tables[model][KeysOf(recs, rowsOf)[i]] == rowsOf(recs[i])[0])
      && (forall t :: t != model ==> o.tables[t] == db[t])
      && o.sheet.Some? && o.sheet.value.title == title && |o.sheet.value.rows| == |recs| + 1
      && o.sheet.value.rows[0] == HeaderRow(header)
      && (forall i :: 0 <= i < |recs| ==> o.sheet.value.rows[i + 1] == cells(recs[i]))
  {
    var o := Synced(db, model, Ok(recs), rowsOf, cells, header, title);
    var cleared := RemoveKeys(db, Cascade(model), db[model].Keys);
    assert o.tables == Stored(cleared, RowsOfAll(recs, rowsOf)) by {
      assert recs[..|recs|] == recs;
    }
    FlatStored(cleared, model, recs, rowsOf);
    var body := CellsOf(recs, cells);
    assert o.sheet == Some(Sheet(title, Grid(header, body)));
    forall i | 0 <= i < |recs| ensures o.sheet.value.rows[i + 1] == cells(recs[i]) {
      assert body[i] == cells(recs[i]);
    }
  }

  /** The table part of `FlatReplaced`, on the store the delete left. */
  lemma FlatStored<T(!new)>(cleared: Tables, model: Table, recs: seq<T>, rowsOf: T -> seq<Row>)
    requires WellKeyed(cleared) && cleared[model] == map[]
    requires forall x :: |rowsOf(x)| == 1 && Leads(rowsOf(x), model)
    requires Distinct(KeysOf(recs, rowsOf))
    ensures var after := Stored(cleared, RowsOfAll(recs, rowsOf));
      && HoldsKeys(after[model], KeysOf(recs, rowsOf))
      && (forall i :: 0 <= i < |recs| ==> after[model][KeysOf(recs, rowsOf)[i]] == rowsOf(recs[i])[0])
      && (forall t :: t != model ==> after[t] == cleared[t])
  {
    assert recs[..|recs|] == recs && KeysOf(recs, rowsOf)[..|recs|] == KeysOf(recs, rowsOf);
    KeysSoFar(cleared, model, recs, rowsOf, |recs|);
    SingleRowsShape(rowsOf, model);
    StoredRecords(cleared, recs, rowsOf);
    forall t | t != model ensures Stored(cleared, RowsOfAll(recs, rowsOf))[t] == cleared[t] {
      SingleRowsElsewhere(rowsOf, model, t);
      NoRowsIn(recs, rowsOf, t);
      StoredElsewhere(cleared, RowsOfAll(recs, rowsOf), t);
    }
  }

  /** A record stored as one row of the model's table ... */
  lemma SingleRowsShape<T(!new)>(rowsOf: T -> seq<Row>, model: Table)
    requires forall x :: |rowsOf(x)| == 1 && Leads(rowsOf(x), model)
    ensures forall x :: rowsOf(x) != [] && OneKey(rowsOf(x)) && DistinctTables(rowsOf(x))
  {
    forall x ensures rowsOf(x) != [] && OneKey(rowsOf(x)) && DistinctTables(rowsOf(x)) {
      assert |rowsOf(x)| == 1;
    }
  }

  /** ... has no row in any other table. */
  lemma SingleRowsElsewhere<T(!new)>(rowsOf: T -> seq<Row>, model: Table, t: Table)
    requires forall x :: |rowsOf(x)| == 1 && Leads(rowsOf(x), model)
    requires t != model
    ensures forall x, c :: 0 <= c < |rowsOf(x)| ==> TableOf(rowsOf(x)[c]) != t
  {
    forall x, c | 0 <= c < |rowsOf(x)| ensures TableOf(rowsOf(x)[c]) != t {
      assert |rowsOf(x)| == 1 && Leads(rowsOf(x), model);
    }
  }

  /** A posts cycle over posts with distinct ids leaves under each id a row
      holding exactly that post's fields, and writes that post's cells as
      its sheet row. */
  lemma PostsReplaced(db: Tables, recs: seq<S.Post>)
    requires WellKeyed(db) && Distinct(KeysOf(recs, PostRowsOf))
    ensures var o := Synced(db, Posts, Ok(recs), PostRowsOf, PostCells, PostHeader, "Posts");
      && o.reply == Done(|recs|) && o.sheet.Some?
      && forall i :: 0 <= i < |recs| ==>
           && recs[i].id in o.tables[Posts] && o.tables[Posts][recs[i].id].OfPost?
           && PostOf(o.tables[Posts][recs[i].id].post) == recs[i]
           && o.sheet.value.rows[i + 1] == PostCells(recs[i])
  {
    assert forall x :: |PostRowsOf(x)| == 1 && Leads(PostRowsOf(x), Posts);
    FlatReplaced(db, Posts, recs, PostRowsOf, PostCells, PostHeader, "Posts");
    var o := Synced(db, Posts, Ok(recs), PostRowsOf, PostCells, PostHeader, "Posts");
    forall i | 0 <= i < |recs|
      ensures recs[i].id in o.tables[Posts] && o.tables[Posts][recs[i].id] == PostRowsOf(recs[i])[0]
    {
      assert KeysOf(recs, PostRowsOf)[i] == recs[i].id;
      assert KeysOf(recs, PostRowsOf)[i] in o.tables[Posts];
    }
  }

  /** The four rows a user is stored as, each under the user's id. */
  ghost predicate HoldsUser(tables: Tables, u: S.User)
    requires WellKeyed(tables)
  {
    var g := Decompose(u);
    && u.id in tables[Users] && tables[Users][u.id] == OfUser(g.user)
    && u.id in tables[Addresses] && tables[Addresses][u.id] == OfAddress(g.address)
    && u.id in tables[Companies] && tables[Companies][u.id] == OfCompany(g.company)
    && u.id in tables[Geos] && tables[Geos][u.id] == OfGeo(g.geo)
  }

  /** A user sync whose users have distinct ids leaves exactly those users
      in the users table, and under each id the user, address, company and
      geo rows of that user (which `Join` puts back together); tables the
      users' delete does not reach are as they were. */
  lemma UsersReplaced(db: Tables, recs: seq<S.User>)
    requires WellKeyed(db)
    requires Distinct(KeysOf(recs, UserRowsOf))
    ensures var o := Synced(db, Users, Ok(recs), UserRowsOf, UserCells, UserHeader, "Users");
      && o.reply == Done(|recs|)
      && HoldsKeys(o.tables[Users], KeysOf(recs, UserRowsOf))
      && (forall i :: 0 <= i < |recs| ==> HoldsUser(o.tables, recs[i]))
      && (forall t :: t !in Cascade(Users) ==> o.tables[t] == db[t])
      && o.sheet.Some? && o.sheet.value.title == "Users" && |o.sheet.value.rows| == |recs| + 1
      && o.sheet.value.rows[0] == HeaderRow(UserHeader)
      && (forall i :: 0 <= i < |recs| ==> o.sheet.value.rows[i + 1] == UserCells(recs[i]))
  {
    var o := Synced(db, Users, Ok(recs), UserRowsOf, UserCells, UserHeader, "Users");
    var cleared := RemoveKeys(db, Cascade(Users), db[Users].Keys);
    assert o.reply.Done?;
    assert recs[..|recs|] == recs;
    assert o.tables == Stored(cleared, RowsOfAll(recs, UserRowsOf));
    assert cleared[Users] == map[];
    KeysSoFar(cleared, Users, recs, UserRowsOf, |recs|);
    UsersStored(cleared, recs);
    forall t | t !in Cascade(Users) ensures o.tables[t] == db[t] {
      forall u: S.User ensures forall c :: 0 <= c < |UserRowsOf(u)| ==> TableOf(UserRowsOf(u)[c]) != t {
        UserRowsCascade(u);
      }
      NoRowsIn(recs, UserRowsOf, t);
      StoredElsewhere(cleared, RowsOfAll(recs, UserRowsOf), t);
    }
  }

  /** A user's rows all go to tables the users' delete reaches. */
  lemma UserRowsCascade(u: S.User)
    ensures forall c :: 0 <= c < |UserRowsOf(u)| ==> TableOf(UserRowsOf(u)[c]) in Cascade(Users)
  {
    var rows := UserRowsOf(u);
    assert TableOf(rows[0]) == Users && TableOf(rows[1]) == Addresses;
    assert TableOf(rows[2]) == Companies && TableOf(rows[3]) == Geos;
  }

  lemma UsersStored(db: Tables, recs: seq<S.User>)
    requires WellKeyed(db)
    requires Distinct(KeysOf(recs, UserRowsOf))
    ensures forall i :: 0 <= i < |recs| ==> HoldsUser(Stored(db, RowsOfAll(recs, UserRowsOf)), recs[i])
  {
    var after := Stored(db, RowsOfAll(recs, UserRowsOf));
    forall u: S.User ensures OneKey(UserRowsOf(u)) && DistinctTables(UserRowsOf(u)) {
      UserRowsShape(u);
    }
    StoredRecords(db, recs, UserRowsOf);
    forall i | 0 <= i < |recs| ensures HoldsUser(after, recs[i]) {
      UserHeld(after, recs[i]);
    }
  }

  lemma UserRowsShape(u: S.User)
    ensures OneKey(UserRowsOf(u)) && DistinctTables(UserRowsOf(u))
  {
    var rows := UserRowsOf(u);
    assert TableOf(rows[1]) == Addresses && TableOf(rows[2]) == Companies && TableOf(rows[3]) == Geos;
    assert Key(rows[1]) == u.id && Key(rows[2]) == u.id && Key(rows[3]) == u.id;
  }

  lemma UserHeld(tables: Tables, u: S.User)
    requires WellKeyed(tables)
    requires forall c :: 0 <= c < |UserRowsOf(u)| ==>
      var r := UserRowsOf(u)[c];
      Key(r) in tables[TableOf(r)] && tables[TableOf(r)][Key(r)] == r
    ensures HoldsUser(tables, u)
  {
    var rows := UserRowsOf(u);
    assert TableOf(rows[1]) == Addresses && TableOf(rows[2]) == Companies && TableOf(rows[3]) == Geos;
    assert Key(rows[1]) == u.id && Key(rows[2]) == u.id && Key(rows[3]) == u.id;
    var r0, r1, r2, r3 := rows[0], rows[1], rows[2], rows[3];
    assert Key(r0) in tables[TableOf(r0)] && Key(r1) in tables[TableOf(r1)];
    assert Key(r2) in tables[TableOf(r2)] && Key(r3) in tables[TableOf(r3)];
  }

  /** A run whose ids repeat fails at the first repeat and writes no sheet.
      The model's table, which the delete emptied, keeps exactly the
      records before the repeat, and each of their rows sits under its id;
      tables the delete does not reach are as they were. */
  lemma RefusedKeepsPrefix<T(!new)>(db: Tables, model: Table, recs: seq<T>, rowsOf: T -> seq<Row>,
                                    cells: T -> seq<Json>, header: seq<string>, title: string)
    requires WellKeyed(db)
    requires forall x :: rowsOf(x) != [] && Leads(rowsOf(x), model) && OneKey(rowsOf(x)) && DistinctTables(rowsOf(x))
    requires forall x, c :: 0 <= c < |rowsOf(x)| ==> TableOf(rowsOf(x)[c]) in Cascade(model)
    requires !Distinct(KeysOf(recs, rowsOf))
    ensures var o := Synced(db, model, Ok(recs), rowsOf, cells, header, title);
      var ks := KeysOf(recs, rowsOf);
      var n := FirstRepeat(ks);
      && n < |recs| && ks[n] in ks[..n]
      && o.reply == Failed && o.sheet == None
      && HoldsKeys(o.tables[model], ks[..n])
      && (forall i, c :: 0 <= i < n && 0 <= c < |rowsOf(recs[i])| ==>
            var r := rowsOf(recs[i])[c];
            Key(r) in o.tables[TableOf(r)] && o.tables[TableOf(r)][Key(r)] == r)
      && (forall t :: t !in Cascade(model) ==> o.tables[t] == db[t])
  {
    var o := Synced(db, model, Ok(recs), rowsOf, cells, header, title);
    var ks := KeysOf(recs, rowsOf);
    var n := FirstRepeat(ks);
    assert ks[..|recs|] == ks;
    var cleared := RemoveKeys(db, Cascade(model), db[model].Keys);
    var rows := RowsOfAll(recs[..n], rowsOf);
    assert o.tables == Stored(cleared, rows);
    KeysSoFar(cleared, model, recs, rowsOf, n);
    KeysOfPrefix(recs, rowsOf, n);
    StoredRecords(cleared, recs[..n], rowsOf);
    forall i, c | 0 <= i < n && 0 <= c < |rowsOf(recs[i])|
      ensures var r := rowsOf(recs[i])[c];
        Key(r) in o.tables[TableOf(r)] && o.tables[TableOf(r)][Key(r)] == r
    {
      assert recs[..n][i] == recs[i];
    }
    forall t | t !in Cascade(model) ensures o.tables[t] == db[t] {
      NoRowsIn(recs[..n], rowsOf, t);
      StoredElsewhere(cleared, rows, t);
    }
  }

  /** The count the bot reports is the number of items the response
      carried, and there is a count only for a response with status 200. */
  lemma DoneCountsPayload<T(!new)>(db: Tables, model: Table, resp: U.Response, validate: Json -> Result<T, S.Violation>,
                                   rowsOf: T -> seq<Row>, cells: T -> seq<Json>, header: seq<string>, title: string)
    requires WellKeyed(db) && forall x :: rowsOf(x) != []
    ensures var o := Synced(db, model, U.FetchData(resp, validate), rowsOf, cells, header, title);
      o.reply.Done? ==> resp.status == 200 && U.Payload(resp).Some? && o.reply.count == |U.Payload(resp).value|
  {
  }

  /** Replacing is not atomic: with a post already stored and a batch of
      two posts sharing id 1, the old post is deleted, the first new post is
      committed, and the bot reports the failure. */
  lemma ReplaceNotAtomic()
    ensures var before := Empty()[Posts := map[7 := OfPost(PostRow(7, 1, "old", "b"))]];
      var first := S.Post(1, 1, "a", "b");
      var o := Synced(before, Posts, Ok([first, S.Post(1, 1, "c", "d")]), PostRowsOf, PostCells, PostHeader, "Posts");
      && o.reply == Failed && o.sheet == None
      && o.tables[Posts] == map[1 := OfPost(PostRow(1, 1, "a", "b"))]
  {
    var before := Empty()[Posts := map[7 := OfPost(PostRow(7, 1, "old", "b"))]];
    var first := S.Post(1, 1, "a", "b");
    var recs := [first, S.Post(1, 1, "c", "d")];
    var ks := KeysOf(recs, PostRowsOf);
    assert ks == [1, 1];
    assert FirstRepeat(ks) == 1 by {
      assert ks[..1] == [1];
    }
    var cleared := RemoveKeys(before, Cascade(Posts), before[Posts].Keys);
    assert cleared[Posts] == map[];
    assert recs[..1] == [first];
    assert RowsOfAll([first], PostRowsOf) == [OfPost(PostRow(1, 1, "a", "b"))] by {
      assert [first][..0] == [];
    }
    StoredOne(cleared, [OfPost(PostRow(1, 1, "a", "b"))]);
  }
}
