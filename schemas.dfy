/** The validation models of app/services/schemas.py. Every declared field
    is required and has a JSON kind; fields not declared are ignored. */
module Schemas {
  import opened Results
  import opened Json
  import U = Utils

  // ---------------------------------------------------------------------
  // Shapes
  // ---------------------------------------------------------------------

  /** The JSON kind a declared field accepts; a nested model is a nested
      object with its own fields. */
  datatype Kind = IntKind | StrKind | BoolKind | ObjKind(fields: seq<FieldSpec>)

  datatype FieldSpec = FieldSpec(name: string, kind: Kind)

  /** Where in a record a violation was found, as a list of keys. */
  type Path = seq<string>

  datatype Violation =
    | Missing(path: Path)
    | WrongKind(path: Path, expected: Kind)

  /** `j` has every field the kind declares, each of the declared kind. */
  predicate Conforms(j: Json, k: Kind)
    decreases k
  {
    match k
    case IntKind => j.JInt?
    case StrKind => j.JStr?
    case BoolKind => j.JBool?
    case ObjKind(fs) => j.JObj? && FieldsConform(j.members, fs)
  }

  predicate FieldsConform(o: seq<Member>, fs: seq<FieldSpec>)
    decreases fs
  {
    fs == [] || (FieldOk(o, fs[0]) && FieldsConform(o, fs[1..]))
  }

  /** The declared field is present and of its declared kind. */
  predicate FieldOk(o: seq<Member>, f: FieldSpec)
    decreases f, 1
  {
    Get(o, f.name).Some? && Conforms(Get(o, f.name).value, f.kind)
  }

  /** The value under a key of an object; `JNull` when there is none. */
  function Field(j: Json, name: string): Json
  {
    if j.JObj? && Get(j.members, name).Some? then Get(j.members, name).value else JNull
  }

  /** `j` cut down to the declared fields, in declaration order: what a
      model keeps of its input. */
  function Restrict(j: Json, k: Kind): Json
    decreases k
  {
    match k
    case ObjKind(fs) => JObj(RestrictFields(j, fs))
    case _ => j
  }

  function RestrictFields(j: Json, fs: seq<FieldSpec>): seq<Member>
    decreases fs
  {
    if fs == [] then []
    else [Member(fs[0].name, Restrict(Field(j, fs[0].name), fs[0].kind))] + RestrictFields(j, fs[1..])
  }

  // ---------------------------------------------------------------------
  // Field checks
  // ---------------------------------------------------------------------

  function AsObject(j: Json, path: Path, k: Kind): (r: Result<seq<Member>, Violation>)
    ensures r.Ok? <==> j.JObj?
    ensures r.Ok? ==> r.value == j.members
  {
    if j.JObj? then Ok(j.members) else Err(WrongKind(path, k))
  }

  function Required(o: seq<Member>, path: Path, name: string): (r: Result<Json, Violation>)
    ensures r.Ok? <==> Get(o, name).Some?
    ensures r.Ok? ==> Get(o, name) == Some(r.value)
    ensures r.Err? ==> r.error == Missing(path + [name])
  {
    match Get(o, name)
    case None => Err(Missing(path + [name]))
    case Some(v) => Ok(v)
  }

  function IntAt(o: seq<Member>, path: Path, name: string): (r: Result<int, Violation>)
    ensures r.Ok? <==> Get(o, name).Some? && Get(o, name).value.JInt?
    ensures r.Ok? ==> Get(o, name) == Some(JInt(r.value))
  {
    var v :- Required(o, path, name);
    if v.JInt? then Ok(v.i) else Err(WrongKind(path + [name], IntKind))
  }

  function StrAt(o: seq<Member>, path: Path, name: string): (r: Result<string, Violation>)
    ensures r.Ok? <==> Get(o, name).Some? && Get(o, name).value.JStr?
    ensures r.Ok? ==> Get(o, name) == Some(JStr(r.value))
  {
    var v :- Required(o, path, name);
    if v.JStr? then Ok(v.s) else Err(WrongKind(path + [name], StrKind))
  }

  function BoolAt(o: seq<Member>, path: Path, name: string): (r: Result<bool, Violation>)
    ensures r.Ok? <==> Get(o, name).Some? && Get(o, name).value.JBool?
    ensures r.Ok? ==> Get(o, name) == Some(JBool(r.value))
  {
    var v :- Required(o, path, name);
    if v.JBool? then Ok(v.b) else Err(WrongKind(path + [name], BoolKind))
  }

  // ---------------------------------------------------------------------
  // PostValidate
  // ---------------------------------------------------------------------

  datatype Post = Post(userId: int, id: int, title: string, body: string)

  const PostKind: Kind :=
    ObjKind([FieldSpec("user_id", IntKind), FieldSpec("id", IntKind),
             FieldSpec("title", StrKind), FieldSpec("body", StrKind)])

  function PostJson(p: Post): Json
  {
    JObj([Member("user_id", JInt(p.userId)), Member("id", JInt(p.id)),
          Member("title", JStr(p.title)), Member("body", JStr(p.body))])
  }

  /** `PostValidate(**item)`. */
  function ValidatePost(j: Json): (r: Result<Post, Violation>)
    ensures r.Ok? <==> Conforms(j, PostKind)
    ensures r.Ok? ==> PostJson(r.value) == Restrict(j, PostKind)
  {
    var o :- AsObject(j, [], PostKind);
    var userId :- IntAt(o, [], "user_id");
    var id :- IntAt(o, [], "id");
    var title :- StrAt(o, [], "title");
    var body :- StrAt(o, [], "body");
    assert Field(j, "user_id") == JInt(userId) && Field(j, "id") == JInt(id);
    assert Field(j, "title") == JStr(title) && Field(j, "body") == JStr(body);
    assert RestrictFields(j, PostKind.fields) == PostJson(Post(userId, id, title, body)).members;
    Ok(Post(userId, id, title, body))
  }

  // ---------------------------------------------------------------------
  // CommentValidate
  // ---------------------------------------------------------------------

  datatype Comment = Comment(postId: int, id: int, name: string, email: string, body: string)

  const CommentKind: Kind :=
    ObjKind([FieldSpec("post_id", IntKind), FieldSpec("id", IntKind), FieldSpec("name", StrKind),
             FieldSpec("email", StrKind), FieldSpec("body", StrKind)])

  function CommentJson(c: Comment): Json
  {
    JObj([Member("post_id", JInt(c.postId)), Member("id", JInt(c.id)), Member("name", JStr(c.name)),
          Member("email", JStr(c.email)), Member("body", JStr(c.body))])
  }

  /** `CommentValidate(**item)`. */
  function ValidateComment(j: Json): (r: Result<Comment, Violation>)
    ensures r.Ok? <==> Conforms(j, CommentKind)
    ensures r.Ok? ==> CommentJson(r.value) == Restrict(j, CommentKind)
  {
    var o :- AsObject(j, [], CommentKind);
    var postId :- IntAt(o, [], "post_id");
    var id :- IntAt(o, [], "id");
    var name :- StrAt(o, [], "name");
    var email :- StrAt(o, [], "email");
    var body :- StrAt(o, [], "body");
    assert Field(j, "post_id") == JInt(postId) && Field(j, "id") == JInt(id);
    assert Field(j, "name") == JStr(name) && Field(j, "email") == JStr(email) && Field(j, "body") == JStr(body);
    assert RestrictFields(j, CommentKind.fields) == CommentJson(Comment(postId, id, name, email, body)).members;
    Ok(Comment(postId, id, name, email, body))
  }

  // ---------------------------------------------------------------------
  // PhotoValidate
  // ---------------------------------------------------------------------

  datatype Photo = Photo(albumId: int, id: int, title: string, url: string, thumbnailUrl: string)

  const PhotoKind: Kind :=
    ObjKind([FieldSpec("album_id", IntKind), FieldSpec("id", IntKind), FieldSpec("title", StrKind),
             FieldSpec("url", StrKind), FieldSpec("thumbnail_url", StrKind)])

  function PhotoJson(p: Photo): Json
  {
    JObj([Member("album_id", JInt(p.albumId)), Member("id", JInt(p.id)), Member("title", JStr(p.title)),
          Member("url", JStr(p.url)), Member("thumbnail_url", JStr(p.thumbnailUrl))])
  }

  /** `PhotoValidate(**item)`. */
  function ValidatePhoto(j: Json): (r: Result<Photo, Violation>)
    ensures r.Ok? <==> Conforms(j, PhotoKind)
    ensures r.Ok? ==> PhotoJson(r.value) == Restrict(j, PhotoKind)
  {
    var o :- AsObject(j, [], PhotoKind);
    var albumId :- IntAt(o, [], "album_id");
    var id :- IntAt(o, [], "id");
    var title :- StrAt(o, [], "title");
    var url :- StrAt(o, [], "url");
    var thumbnailUrl :- StrAt(o, [], "thumbnail_url");
    assert Field(j, "album_id") == JInt(albumId) && Field(j, "id") == JInt(id);
    assert Field(j, "title") == JStr(title) && Field(j, "url") == JStr(url);
    assert Field(j, "thumbnail_url") == JStr(thumbnailUrl);
    assert RestrictFields(j, PhotoKind.fields) == PhotoJson(Photo(albumId, id, title, url, thumbnailUrl)).members;
    Ok(Photo(albumId, id, title, url, thumbnailUrl))
  }

  // ---------------------------------------------------------------------
  // AlbumValidate
  // ---------------------------------------------------------------------

  datatype Album = Album(userId: int, id: int, title: string)

  const AlbumKind: Kind :=
    ObjKind([FieldSpec("user_id", IntKind), FieldSpec("id", IntKind), FieldSpec("title", StrKind)])

  function AlbumJson(a: Album): Json
  {
    JObj([Member("user_id", JInt(a.userId)), Member("id", JInt(a.id)), Member("title", JStr(a.title))])
  }

  /** `AlbumValidate(**item)`. */
  function ValidateAlbum(j: Json): (r: Result<Album, Violation>)
    ensures r.Ok? <==> Conforms(j, AlbumKind)
    ensures r.Ok? ==> AlbumJson(r.value) == Restrict(j, AlbumKind)
  {
    var o :- AsObject(j, [], AlbumKind);
    var userId :- IntAt(o, [], "user_id");
    var id :- IntAt(o, [], "id");
    var title :- StrAt(o, [], "title");
    assert Field(j, "user_id") == JInt(userId) && Field(j, "id") == JInt(id) && Field(j, "title") == JStr(title);
    assert RestrictFields(j, AlbumKind.fields) == AlbumJson(Album(userId, id, title)).members;
    Ok(Album(userId, id, title))
  }

  // ---------------------------------------------------------------------
  // TodoValidate
  // ---------------------------------------------------------------------

  datatype Todo = Todo(userId: int, id: int, title: string, completed: bool)

  const TodoKind: Kind :=
    ObjKind([FieldSpec("user_id", IntKind), FieldSpec("id", IntKind),
             FieldSpec("title", StrKind), FieldSpec("completed", BoolKind)])

  function TodoJson(t: Todo): Json
  {
    JObj([Member("user_id", JInt(t.userId)), Member("id", JInt(t.id)),
          Member("title", JStr(t.title)), Member("completed", JBool(t.completed))])
  }

  /** `TodoValidate(**item)`. */
  function ValidateTodo(j: Json): (r: Result<Todo, Violation>)
    ensures r.Ok? <==> Conforms(j, TodoKind)
    ensures r.Ok? ==> TodoJson(r.value) == Restrict(j, TodoKind)
  {
    var o :- AsObject(j, [], TodoKind);
    var userId :- IntAt(o, [], "user_id");
    var id :- IntAt(o, [], "id");
    var title :- StrAt(o, [], "title");
    var completed :- BoolAt(o, [], "completed");
    assert Field(j, "user_id") == JInt(userId) && Field(j, "id") == JInt(id);
    assert Field(j, "title") == JStr(title) && Field(j, "completed") == JBool(completed);
    assert RestrictFields(j, TodoKind.fields) == TodoJson(Todo(userId, id, title, completed)).members;
    Ok(Todo(userId, id, title, completed))
  }

  // ---------------------------------------------------------------------
  // GeoValidate, AddressValidate, CompanyValidate, UserValidate
  // ---------------------------------------------------------------------

  /** Latitude and longitude are strings and are never parsed. */
  datatype Geo = Geo(lat: string, lng: string)

  const GeoKind: Kind := AddressKind.fields[4].kind

  function GeoJson(g: Geo): Json
  {
    JObj([Member("lat", JStr(g.lat)), Member("lng", JStr(g.lng))])
  }

  /** `GeoValidate`, applied to the value found at `path`. */
  function ValidateGeo(j: Json, path: Path): (r: Result<Geo, Violation>)
    ensures r.Ok? <==> Conforms(j, GeoKind)
    ensures r.Ok? ==> GeoJson(r.value) == Restrict(j, GeoKind)
  {
    var o :- AsObject(j, path, GeoKind);
    var lat :- StrAt(o, path, "lat");
    var lng :- StrAt(o, path, "lng");
    assert Field(j, "lat") == JStr(lat) && Field(j, "lng") == JStr(lng);
    assert RestrictFields(j, GeoKind.fields) == GeoJson(Geo(lat, lng)).members;
    Ok(Geo(lat, lng))
  }

  datatype Address = Address(street: string, suite: string, city: string, zipcode: string, geo: Geo)

  const AddressKind: Kind :=
    ObjKind([FieldSpec("street", StrKind), FieldSpec("suite", StrKind), FieldSpec("city", StrKind),
             FieldSpec("zipcode", StrKind),
             FieldSpec("geo", ObjKind([FieldSpec("lat", StrKind), FieldSpec("lng", StrKind)]))])

  function AddressJson(a: Address): Json
  {
    JObj([Member("street", JStr(a.street)), Member("suite", JStr(a.suite)), Member("city", JStr(a.city)),
          Member("zipcode", JStr(a.zipcode)), Member("geo", GeoJson(a.geo))])
  }

  /** `AddressValidate`, applied to the value found at `path`. */
  function ValidateAddress(j: Json, path: Path): (r: Result<Address, Violation>)
    ensures r.Ok? <==> Conforms(j, AddressKind)
    ensures r.Ok? ==> AddressJson(r.value) == Restrict(j, AddressKind)
  {
    var o :- AsObject(j, path, AddressKind);
    var street :- StrAt(o, path, "street");
    var suite :- StrAt(o, path, "suite");
    var city :- StrAt(o, path, "city");
    var zipcode :- StrAt(o, path, "zipcode");
    var gj :- Required(o, path, "geo");
    var geo :- ValidateGeo(gj, path + ["geo"]);
    assert Field(j, "street") == JStr(street) && Field(j, "suite") == JStr(suite);
    assert Field(j, "city") == JStr(city) && Field(j, "zipcode") == JStr(zipcode);
    assert Field(j, "geo") == gj;
    assert RestrictFields(j, AddressKind.fields) == AddressJson(Address(street, suite, city, zipcode, geo)).members;
    Ok(Address(street, suite, city, zipcode, geo))
  }

  /** The company field is `catch_phrase`: upstream `catchPhrase` only
      matches it once keys are normalised. */
  datatype Company = Company(name: string, catchPhrase: string, bs: string)

  const CompanyKind: Kind :=
    ObjKind([FieldSpec("name", StrKind), FieldSpec("catch_phrase", StrKind), FieldSpec("bs", StrKind)])

  function CompanyJson(c: Company): Json
  {
    JObj([Member("name", JStr(c.name)), Member("catch_phrase", JStr(c.catchPhrase)), Member("bs", JStr(c.bs))])
  }

  /** `CompanyValidate`, applied to the value found at `path`. */
  function ValidateCompany(j: Json, path: Path): (r: Result<Company, Violation>)
    ensures r.Ok? <==> Conforms(j, CompanyKind)
    ensures r.Ok? ==> CompanyJson(r.value) == Restrict(j, CompanyKind)
  {
    var o :- AsObject(j, path, CompanyKind);
    var name :- StrAt(o, path, "name");
    var catchPhrase :- StrAt(o, path, "catch_phrase");
    var bs :- StrAt(o, path, "bs");
    assert Field(j, "name") == JStr(name) && Field(j, "catch_phrase") == JStr(catchPhrase) && Field(j, "bs") == JStr(bs);
    assert RestrictFields(j, CompanyKind.fields) == CompanyJson(Company(name, catchPhrase, bs)).members;
    Ok(Company(name, catchPhrase, bs))
  }

  datatype User = User(id: int, name: string, username: string, email: string, address: Address,
                       phone: string, website: string, company: Company)

  const UserKind: Kind :=
    ObjKind([FieldSpec("id", IntKind), FieldSpec("name", StrKind), FieldSpec("username", StrKind),
             FieldSpec("email", StrKind), FieldSpec("address", AddressKind), FieldSpec("phone", StrKind),
             FieldSpec("website", StrKind), FieldSpec("company", CompanyKind)])

  function UserJson(u: User): Json
  {
    JObj([Member("id", JInt(u.id)), Member("name", JStr(u.name)), Member("username", JStr(u.username)),
          Member("email", JStr(u.email)), Member("address", AddressJson(u.address)),
          Member("phone", JStr(u.phone)), Member("website", JStr(u.website)),
          Member("company", CompanyJson(u.company))])
  }

  /** `UserValidate(**item)`: the nested address (with its geo) and the
      company are validated as part of the user. */
  function ValidateUser(j: Json): (r: Result<User, Violation>)
    ensures r.Ok? <==> Conforms(j, UserKind)
    ensures r.Ok? ==> UserJson(r.value) == Restrict(j, UserKind)
  {
    var o :- AsObject(j, [], UserKind);
    UserConformsFields(j);
    var id :- IntAt(o, [], "id");
    var name :- StrAt(o, [], "name");
    var username :- StrAt(o, [], "username");
    var email :- StrAt(o, [], "email");
    var aj :- Required(o, [], "address");
    var address :- ValidateAddress(aj, ["address"]);
    var phone :- StrAt(o, [], "phone");
    var website :- StrAt(o, [], "website");
    var cj :- Required(o, [], "company");
    var company :- ValidateCompany(cj, ["company"]);
    assert Field(j, "id") == JInt(id) && Field(j, "name") == JStr(name);
    assert Field(j, "username") == JStr(username) && Field(j, "email") == JStr(email);
    assert Field(j, "phone") == JStr(phone) && Field(j, "website") == JStr(website);
    assert Field(j, "address") == aj && Field(j, "company") == cj;
    var u := User(id, name, username, email, address, phone, website, company);
    UserRestrictFields(j);
    Ok(u)
  }

  /** One declared field after another: conformance to a suffix of the
      declarations. */
  lemma ConformsStep(o: seq<Member>, fs: seq<FieldSpec>, i: nat)
    requires i < |fs|
    ensures FieldsConform(o, fs[i..]) <==> FieldOk(o, fs[i]) && FieldsConform(o, fs[i + 1..])
  {
    assert fs[i..][1..] == fs[i + 1..];
  }

  lemma ConformsEight(o: seq<Member>, fs: seq<FieldSpec>)
    requires |fs| == 8
    ensures FieldsConform(o, fs) <==>
      && FieldOk(o, fs[0]) && FieldOk(o, fs[1]) && FieldOk(o, fs[2]) && FieldOk(o, fs[3])
      && FieldOk(o, fs[4]) && FieldOk(o, fs[5]) && FieldOk(o, fs[6]) && FieldOk(o, fs[7])
  {
    ConformsStep(o, fs, 7); ConformsStep(o, fs, 6); ConformsStep(o, fs, 5); ConformsStep(o, fs, 4);
    ConformsStep(o, fs, 3); ConformsStep(o, fs, 2); ConformsStep(o, fs, 1); ConformsStep(o, fs, 0);
    assert fs[8..] == [] && fs[0..] == fs;
  }

  /** The user shape field by field (it nests the address and company
      shapes, which the verifier does not unfold on its own). */
  lemma UserConformsFields(j: Json)
    requires j.JObj?
    ensures Conforms(j, UserKind) <==>
      && FieldOk(j.members, FieldSpec("id", IntKind))
      && FieldOk(j.members, FieldSpec("name", StrKind))
      && FieldOk(j.members, FieldSpec("username", StrKind))
      && FieldOk(j.members, FieldSpec("email", StrKind))
      && FieldOk(j.members, FieldSpec("address", AddressKind))
      && FieldOk(j.members, FieldSpec("phone", StrKind))
      && FieldOk(j.members, FieldSpec("website", StrKind))
      && FieldOk(j.members, FieldSpec("company", CompanyKind))
  {
    ConformsEight(j.members, UserKind.fields);
  }

  function Restricted(j: Json, f: FieldSpec): Member
  {
    Member(f.name, Restrict(Field(j, f.name), f.kind))
  }

  /** The restriction keeps one member per declaration, in declaration
      order. */
  lemma {:induction false} RestrictAll(j: Json, fs: seq<FieldSpec>)
    ensures |RestrictFields(j, fs)| == |fs|
    ensures forall i :: 0 <= i < |fs| ==> RestrictFields(j, fs)[i] == Restricted(j, fs[i])
    decreases fs
  {
    if fs != [] {
      RestrictAll(j, fs[1..]);
      forall i | 1 <= i < |fs| ensures RestrictFields(j, fs)[i] == Restricted(j, fs[i]) {
        assert fs[1..][i - 1] == fs[i];
      }
    }
  }

  lemma RestrictEight(j: Json, fs: seq<FieldSpec>)
    requires |fs| == 8
    ensures RestrictFields(j, fs) ==
      [Restricted(j, fs[0]), Restricted(j, fs[1]), Restricted(j, fs[2]), Restricted(j, fs[3]),
       Restricted(j, fs[4]), Restricted(j, fs[5]), Restricted(j, fs[6]), Restricted(j, fs[7])]
  {
    RestrictAll(j, fs);
  }

  lemma UserRestrictFields(j: Json)
    ensures RestrictFields(j, UserKind.fields) ==
      [Member("id", Field(j, "id")), Member("name", Field(j, "name")),
       Member("username", Field(j, "username")), Member("email", Field(j, "email")),
       Member("address", Restrict(Field(j, "address"), AddressKind)),
       Member("phone", Field(j, "phone")), Member("website", Field(j, "website")),
       Member("company", Restrict(Field(j, "company"), CompanyKind))]
  {
    RestrictEight(j, UserKind.fields);
  }

  // ---------------------------------------------------------------------
  // Properties of the shapes
  // ---------------------------------------------------------------------

  /** Encoding a record and validating it gives the record back. */
  lemma PostRoundTrip(p: Post)
    ensures ValidatePost(PostJson(p)) == Ok(p)
  {
    var o := PostJson(p).members;
    GetAt(o, 0); GetAt(o, 1); GetAt(o, 2); GetAt(o, 3);
  }

  lemma CommentRoundTrip(c: Comment)
    ensures ValidateComment(CommentJson(c)) == Ok(c)
  {
    var o := CommentJson(c).members;
    GetAt(o, 0); GetAt(o, 1); GetAt(o, 2); GetAt(o, 3); GetAt(o, 4);
  }

  lemma PhotoRoundTrip(p: Photo)
    ensures ValidatePhoto(PhotoJson(p)) == Ok(p)
  {
    var o := PhotoJson(p).members;
    GetAt(o, 0); GetAt(o, 1); GetAt(o, 2); GetAt(o, 3); GetAt(o, 4);
  }

  lemma AlbumRoundTrip(a: Album)
    ensures ValidateAlbum(AlbumJson(a)) == Ok(a)
  {
    var o := AlbumJson(a).members;
    GetAt(o, 0); GetAt(o, 1); GetAt(o, 2);
  }

  lemma TodoRoundTrip(t: Todo)
    ensures ValidateTodo(TodoJson(t)) == Ok(t)
  {
    var o := TodoJson(t).members;
    GetAt(o, 0); GetAt(o, 1); GetAt(o, 2); GetAt(o, 3);
  }

  lemma GeoRoundTrip(g: Geo, path: Path)
    ensures ValidateGeo(GeoJson(g), path) == Ok(g)
  {
    var o := GeoJson(g).members;
    GetAt(o, 0); GetAt(o, 1);
  }

  lemma AddressRoundTrip(a: Address, path: Path)
    ensures ValidateAddress(AddressJson(a), path) == Ok(a)
  {
    var o := AddressJson(a).members;
    GetAt(o, 0); GetAt(o, 1); GetAt(o, 2); GetAt(o, 3); GetAt(o, 4);
    GeoRoundTrip(a.geo, path + ["geo"]);
  }

  lemma CompanyRoundTrip(c: Company, path: Path)
    ensures ValidateCompany(CompanyJson(c), path) == Ok(c)
  {
    var o := CompanyJson(c).members;
    GetAt(o, 0); GetAt(o, 1); GetAt(o, 2);
  }

  lemma UserRoundTrip(u: User)
    ensures ValidateUser(UserJson(u)) == Ok(u)
  {
    UserGets(u);
    AddressRoundTrip(u.address, ["address"]);
    CompanyRoundTrip(u.company, ["company"]);
  }

  /** The members of an encoded user, found under their own keys. */
  lemma UserGets(u: User)
    ensures var o := UserJson(u).members;
      && Get(o, "id") == Some(JInt(u.id)) && Get(o, "name") == Some(JStr(u.name))
      && Get(o, "username") == Some(JStr(u.username)) && Get(o, "email") == Some(JStr(u.email))
      && Get(o, "address") == Some(AddressJson(u.address)) && Get(o, "phone") == Some(JStr(u.phone))
      && Get(o, "website") == Some(JStr(u.website)) && Get(o, "company") == Some(CompanyJson(u.company))
  {
    var o := UserJson(u).members;
    GetAt(o, 0); GetAt(o, 1); GetAt(o, 2); GetAt(o, 3);
    GetAt(o, 4); GetAt(o, 5); GetAt(o, 6); GetAt(o, 7);
  }

  /** The names a list of declarations declares. */
  function Names(fs: seq<FieldSpec>): (r: set<string>)
    ensures forall i :: 0 <= i < |fs| ==> fs[i].name in r
  {
    set i | 0 <= i < |fs| :: fs[i].name
  }

  /** No field has a default: an object lacking any declared name does not
      conform. */
  lemma {:induction false} MissingFieldFails(o: seq<Member>, fs: seq<FieldSpec>, name: string)
    requires name in Names(fs) && Get(o, name).None?
    ensures !FieldsConform(o, fs)
  {
    if fs[0].name != name {
      assert name in Names(fs[1..]) by {
        var i :| 0 <= i < |fs| && fs[i].name == name;
        assert fs[1..][i - 1] == fs[i];
      }
      MissingFieldFails(o, fs[1..], name);
    }
  }

  /** A post lacking any of `user_id`, `id`, `title`, `body` is rejected. */
  lemma PostFieldsRequired(j: Json, name: string)
    requires name in {"user_id", "id", "title", "body"}
    requires j.JObj? && Get(j.members, name).None?
    ensures ValidatePost(j).Err?
  {
    var fs := PostKind.fields;
    assert name in Names(fs) by {
      assert fs[0].name == "user_id" && fs[1].name == "id" && fs[2].name == "title" && fs[3].name == "body";
    }
    MissingFieldFails(j.members, fs, name);
  }

  /** A photo lacking `url` or `thumbnail_url` is rejected. */
  lemma PhotoNeedsUrls(j: Json)
    requires j.JObj? && (Get(j.members, "url").None? || Get(j.members, "thumbnail_url").None?)
    ensures ValidatePhoto(j).Err?
  {
    if Get(j.members, "url").None? {
      assert PhotoKind.fields[3].name == "url";
      MissingFieldFails(j.members, PhotoKind.fields, "url");
    } else {
      assert PhotoKind.fields[4].name == "thumbnail_url";
      MissingFieldFails(j.members, PhotoKind.fields, "thumbnail_url");
    }
  }

  /** `completed` is a JSON boolean, carried as it is; the ids of a todo are
      integers. */
  lemma TodoKinds(j: Json)
    ensures ValidateTodo(j).Ok? ==>
      && Field(j, "completed") == JBool(ValidateTodo(j).value.completed)
      && Field(j, "id") == JInt(ValidateTodo(j).value.id)
      && Field(j, "user_id") == JInt(ValidateTodo(j).value.userId)
  {
    if ValidateTodo(j).Ok? {
      assert TodoJson(ValidateTodo(j).value).members == RestrictFields(j, TodoKind.fields);
    }
  }

  /** `lat` and `lng` are the strings found in the input, never numbers. */
  lemma GeoVerbatim(j: Json, path: Path)
    ensures ValidateGeo(j, path).Ok? ==>
      Field(j, "lat") == JStr(ValidateGeo(j, path).value.lat) && Field(j, "lng") == JStr(ValidateGeo(j, path).value.lng)
  {
    if ValidateGeo(j, path).Ok? {
      assert GeoJson(ValidateGeo(j, path).value).members == RestrictFields(j, GeoKind.fields);
    }
  }

  /** A user validates exactly when its flat fields do, its address does
      (geo included) and its company does: a failure anywhere in the nest
      rejects the user. */
  lemma UserNest(j: Json)
    ensures ValidateUser(j).Ok? <==>
      && j.JObj?
      && Field(j, "id").JInt? && Field(j, "name").JStr? && Field(j, "username").JStr?
      && Field(j, "email").JStr? && Field(j, "phone").JStr? && Field(j, "website").JStr?
      && ValidateAddress(Field(j, "address"), ["address"]).Ok?
      && ValidateCompany(Field(j, "company"), ["company"]).Ok?
  {
    if j.JObj? {
      UserConformsFields(j);
    }
  }

  /** The address of a user whose geo fails to validate sinks the user. */
  lemma GeoSinksUser(j: Json)
    requires ValidateGeo(Field(Field(j, "address"), "geo"), ["address", "geo"]).Err?
    ensures ValidateUser(j).Err?
  {
    UserNest(j);
  }

  /** A flat dict whose keys rewrite to distinct names is converted member
      by member. */
  lemma ConvertThree(k0: string, k1: string, k2: string, v0: Json, v1: Json, v2: Json)
    requires !v0.JArr? && !v0.JObj? && !v1.JArr? && !v1.JObj? && !v2.JArr? && !v2.JObj?
    requires U.ToSnakeCase(k0) != U.ToSnakeCase(k1) && U.ToSnakeCase(k0) != U.ToSnakeCase(k2)
    requires U.ToSnakeCase(k1) != U.ToSnakeCase(k2)
    ensures U.ConvertKeys(JObj([Member(k0, v0), Member(k1, v1), Member(k2, v2)])).members ==
      [Member(U.ToSnakeCase(k0), v0), Member(U.ToSnakeCase(k1), v1), Member(U.ToSnakeCase(k2), v2)]
  {
    var ms := [Member(k0, v0), Member(k1, v1), Member(k2, v2)];
    var pairs := [Member(U.ToSnakeCase(k0), v0), Member(U.ToSnakeCase(k1), v1), Member(U.ToSnakeCase(k2), v2)];
    PairsThree(k0, k1, k2, v0, v1, v2);
    assert UniqueKeys(pairs) by {
      forall i, j | 0 <= i < j < |pairs| ensures pairs[i].key != pairs[j].key {
        assert i == 0 || i == 1;
      }
    }
    BuildUnique(pairs);
    assert U.ConvertKeys(JObj(ms)) == JObj(Build(U.SnakePairs(ms)));
  }

  lemma PairsThree(k0: string, k1: string, k2: string, v0: Json, v1: Json, v2: Json)
    requires !v0.JArr? && !v0.JObj? && !v1.JArr? && !v1.JObj? && !v2.JArr? && !v2.JObj?
    ensures U.SnakePairs([Member(k0, v0), Member(k1, v1), Member(k2, v2)]) ==
      [Member(U.ToSnakeCase(k0), v0), Member(U.ToSnakeCase(k1), v1), Member(U.ToSnakeCase(k2), v2)]
  {
  }

  /** A company object with a name but no `catch_phrase` is reported
      missing exactly that field. */
  lemma CompanyWithoutCatchPhrase(o: seq<Member>, path: Path)
    requires Get(o, "name").Some? && Get(o, "name").value.JStr? && Get(o, "catch_phrase").None?
    ensures ValidateCompany(JObj(o), path) == Err(Missing(path + ["catch_phrase"]))
  {
  }

  /** The company field is `catch_phrase`: a company carrying the upstream
      `catchPhrase` key is rejected as it is ... */
  lemma CatchPhraseRejected(n: string, c: string, b: string)
    ensures ValidateCompany(JObj([Member("name", JStr(n)), Member("catchPhrase", JStr(c)), Member("bs", JStr(b))]), ["company"])
      == Err(Missing(["company", "catch_phrase"]))
  {
    var ms := [Member("name", JStr(n)), Member("catchPhrase", JStr(c)), Member("bs", JStr(b))];
    GetAt(ms, 0);
    assert "catch_phrase" !in Keys(ms);
    CompanyWithoutCatchPhrase(ms, ["company"]);
    assert ["company"] + ["catch_phrase"] == ["company", "catch_phrase"];
  }

  /** ... and accepted once its keys are normalised: whatever upstream keys
      rewrite to `name`, `catch_phrase` and `bs` (`catchPhrase` is one, see
      `Utils.SnakeOfCatchPhrase`) give the company back. */
  lemma CatchPhraseNormalised(kn: string, kc: string, kb: string, n: string, c: string, b: string, path: Path)
    requires U.ToSnakeCase(kn) == "name" && U.ToSnakeCase(kc) == "catch_phrase" && U.ToSnakeCase(kb) == "bs"
    ensures ValidateCompany(U.ConvertKeys(JObj([Member(kn, JStr(n)), Member(kc, JStr(c)), Member(kb, JStr(b))])), path)
      == Ok(Company(n, c, b))
  {
    ConvertThree(kn, kc, kb, JStr(n), JStr(c), JStr(b));
    CompanyRoundTrip(Company(n, c, b), path);
  }

  /** An upstream photo without its links, such as `{"albumId": 3, "id": 10,
      "title": "x"}` (`albumId` rewrites to `album_id`, see
      `Utils.SnakeOfAlbumId`), is rejected after normalisation for its
      missing `url`. */
  lemma PhotoWithoutUrl(ka: string, ki: string, kt: string, albumId: int, id: int, title: string)
    requires U.ToSnakeCase(ka) == "album_id" && U.ToSnakeCase(ki) == "id" && U.ToSnakeCase(kt) == "title"
    ensures ValidatePhoto(U.ConvertKeys(JObj([Member(ka, JInt(albumId)), Member(ki, JInt(id)),
                                             Member(kt, JStr(title))]))) == Err(Missing(["url"]))
  {
    ConvertThree(ka, ki, kt, JInt(albumId), JInt(id), JStr(title));
    PhotoWithoutUrlAt(albumId, id, title);
  }

  lemma PhotoWithoutUrlAt(albumId: int, id: int, title: string)
    ensures ValidatePhoto(JObj([Member("album_id", JInt(albumId)), Member("id", JInt(id)),
                                Member("title", JStr(title))])) == Err(Missing(["url"]))
  {
    var o := [Member("album_id", JInt(albumId)), Member("id", JInt(id)), Member("title", JStr(title))];
    GetAt(o, 0); GetAt(o, 1); GetAt(o, 2);
    assert "url" !in Keys(o);
    assert [] + ["url"] == ["url"];
  }
}
