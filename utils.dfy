/** Key normalisation and batch fetching (app/services/utils.py). */
module Utils {
  import opened Results
  import opened Json

  // ---------------------------------------------------------------------
  // to_snake_case
  // ---------------------------------------------------------------------

  /** The class `[A-Z]` of the substitution pattern. */
  predicate IsUpper(c: char)
  {
    'A' <= c <= 'Z'
  }

  /** `str.lower` on one character, restricted to ASCII letters. */
  function Lower(c: char): (r: char)
    ensures !IsUpper(r)
    ensures !IsUpper(c) ==> r == c
  {
    if IsUpper(c) then (c as int + 32) as char else c
  }

  predicate NoUpper(s: string)
  {
    forall i :: 0 <= i < |s| ==> !IsUpper(s[i])
  }

  /** Number of ASCII upper-case letters in `s`. */
  function CountUpper(s: string): nat
  {
    if s == [] then 0 else (if IsUpper(s[0]) then 1 else 0) + CountUpper(s[1..])
  }

  /** The substitution for positions after the first one: a `_` goes in
      front of every upper-case letter. */
  function MarkTail(s: string): string
  {
    if s == [] then []
    else (if IsUpper(s[0]) then ['_', s[0]] else [s[0]]) + MarkTail(s[1..])
  }

  /** `re.sub(r'(?<!^)(?=[A-Z])', '_', s)`: the look-behind `(?<!^)`
      excludes position 0 only. */
  function Underscored(s: string): string
  {
    if s == [] then [] else [s[0]] + MarkTail(s[1..])
  }

  /** `str.lower` on a whole string. */
  function LowerAll(s: string): (r: string)
    ensures |r| == |s|
    ensures forall i :: 0 <= i < |s| ==> r[i] == Lower(s[i])
  {
    if s == [] then [] else [Lower(s[0])] + LowerAll(s[1..])
  }

  /** `to_snake_case(name)`. */
  function ToSnakeCase(name: string): (r: string)
    ensures NoUpper(r)
    ensures |r| == |name| + (if name == [] then 0 else CountUpper(name[1..]))
    ensures name != [] ==> r[0] == Lower(name[0])
  {
    MarkTailLength(if name == [] then [] else name[1..]);
    LowerAll(Underscored(name))
  }

  lemma {:induction false} MarkTailLength(s: string)
    ensures |MarkTail(s)| == |s| + CountUpper(s)
  {
    if s != [] { MarkTailLength(s[1..]); }
  }

  /** A string without upper-case letters passes through the substitution
      unchanged. */
  lemma {:induction false} MarkTailNoUpper(s: string)
    requires NoUpper(s)
    ensures MarkTail(s) == s
  {
    if s != [] {
      assert NoUpper(s[1..]) by {
        forall i | 0 <= i < |s[1..]| ensures !IsUpper(s[1..][i]) { assert s[1..][i] == s[i + 1]; }
      }
      MarkTailNoUpper(s[1..]);
      assert s == [s[0]] + s[1..];
    }
  }

  /** Already-lowercase keys come back unchanged. */
  lemma SnakeOfLower(s: string)
    requires NoUpper(s)
    ensures ToSnakeCase(s) == s
  {
    if s != [] {
      assert NoUpper(s[1..]) by {
        forall i | 0 <= i < |s[1..]| ensures !IsUpper(s[1..][i]) { assert s[1..][i] == s[i + 1]; }
      }
      MarkTailNoUpper(s[1..]);
      assert Underscored(s) == s;
    }
  }

  /** `to_snake_case` is idempotent. */
  lemma SnakeIdempotent(s: string)
    ensures ToSnakeCase(ToSnakeCase(s)) == ToSnakeCase(s)
  {
    SnakeOfLower(ToSnakeCase(s));
  }

  /** Worked example: every capital after the first position gets its
      own underscore. */
  lemma SnakeOfAcronym()
    ensures ToSnakeCase("userID") == "user_i_d"
  {
    var head := "ser";
    assert NoUpper(head) by {}
    MarkTailNoUpper(head);
    assert "userID"[1..] == head + "ID" by {}
    MarkTailAppend(head, "ID");
    assert MarkTail("ID") == "_I_D" by {
      assert "ID"[1..] == "D" && "D"[1..] == [];
    }
    var u := Underscored("userID");
    assert u == "user_I_D" by {}
    assert LowerAll(u) == "user_i_d" by {
      assert Lower('I') == 'i' && Lower('D') == 'd';
    }
  }

  /** Worked example: a leading capital gets no underscore. */
  lemma SnakeOfLeadingCapital()
    ensures ToSnakeCase("Id") == "id"
  {
  }

  lemma {:induction false} MarkTailAppend(a: string, b: string)
    ensures MarkTail(a + b) == MarkTail(a) + MarkTail(b)
  {
    if a != [] {
      assert (a + b)[1..] == a[1..] + b;
      MarkTailAppend(a[1..], b);
    } else {
      assert a + b == b;
    }
  }

  /** A camel-case key with one hump: a lower-case head, one capital, a
      lower-case tail becomes head, `_`, the lowered capital, tail. */
  lemma OneHump(head: string, c: char, tail: string)
    requires head != [] && NoUpper(head) && IsUpper(c) && NoUpper(tail)
    ensures ToSnakeCase(head + [c] + tail) == head + ['_', Lower(c)] + tail
  {
    var s := head + [c] + tail;
    assert s[1..] == head[1..] + ([c] + tail);
    MarkTailAppend(head[1..], [c] + tail);
    assert NoUpper(head[1..]) by {
      forall i | 0 <= i < |head[1..]| ensures !IsUpper(head[1..][i]) { assert head[1..][i] == head[i + 1]; }
    }
    MarkTailNoUpper(head[1..]);
    MarkTailNoUpper(tail);
    assert ([c] + tail)[1..] == tail;
    assert MarkTail([c] + tail) == ['_', c] + tail;
    assert Underscored(s) == [head[0]] + head[1..] + ['_', c] + tail;
    assert [head[0]] + head[1..] == head;
    var u := head + ['_', c] + tail;
    var l := LowerAll(u);
    forall i | 0 <= i < |u| ensures l[i] == (head + ['_', Lower(c)] + tail)[i] {
      if i < |head| {
        assert u[i] == head[i];
      } else if i > |head| + 1 {
        assert u[i] == tail[i - |head| - 2];
      }
    }
  }

  /** The upstream company key that the company schema relies on. */
  lemma SnakeOfCatchPhrase()
    ensures ToSnakeCase("catchPhrase") == "catch_phrase"
  {
    var head, tail := "catch", "hrase";
    assert NoUpper(head) && NoUpper(tail) by {}
    assert "catchPhrase" == head + ['P'] + tail by {}
    assert head + ['_', Lower('P')] + tail == "catch_phrase" by {}
    OneHump(head, 'P', tail);
  }

  /** The upstream photo key that the photo schema relies on. */
  lemma SnakeOfThumbnailUrl()
    ensures ToSnakeCase("thumbnailUrl") == "thumbnail_url"
  {
    var head, tail := "thumbnail", "rl";
    assert NoUpper(head) && NoUpper(tail) by {}
    assert "thumbnailUrl" == head + ['U'] + tail by {}
    assert head + ['_', Lower('U')] + tail == "thumbnail_url" by {}
    OneHump(head, 'U', tail);
  }

  /** The upstream parent key of photos. */
  lemma SnakeOfAlbumId()
    ensures ToSnakeCase("albumId") == "album_id"
  {
    var head, tail := "album", "d";
    assert NoUpper(head) && NoUpper(tail) by {}
    assert "albumId" == head + ['I'] + tail by {}
    assert head + ['_', Lower('I')] + tail == "album_id" by {}
    OneHump(head, 'I', tail);
  }

  // ---------------------------------------------------------------------
  // convert_keys_to_snake_case
  // ---------------------------------------------------------------------

  /** `convert_keys_to_snake_case(obj)`: dicts are rebuilt by a dict
      comprehension over their items, lists by a list comprehension, and
      every other value is returned as it is. */
  function ConvertKeys(j: Json): (r: Json)
    ensures Normal(r)
    ensures !j.JArr? && !j.JObj? ==> r == j
    ensures j.JArr? ==> r.JArr? && |r.items| == |j.items|
    ensures j.JArr? ==> forall i :: 0 <= i < |j.items| ==> r.items[i] == ConvertKeys(j.items[i])
    ensures j.JObj? ==> r.JObj? && |r.members| <= |j.members|
    decreases j
  {
    match j
    case JArr(items) =>
      var r := JArr(seq(|items|, i requires 0 <= i < |items| => ConvertKeys(items[i])));
      assert forall i :: 0 <= i < |r.items| ==> Normal(r.items[i]);
      r
    case JObj(ms) =>
      var pairs := SnakePairs(ms);
      var b := Build(pairs);
      assert forall i :: 0 <= i < |b| ==> b[i] in pairs;
      JObj(b)
    case _ => j
  }

  /** The items of a dict with their keys rewritten and values converted,
      in the dict's order (duplicates possible once keys are rewritten). */
  function SnakePairs(ms: seq<Member>): (r: seq<Member>)
    ensures |r| == |ms|
    ensures forall i :: 0 <= i < |ms| ==> r[i].key == ToSnakeCase(ms[i].key)
    ensures forall x :: x in r ==> NoUpper(x.key) && Normal(x.value)
    decreases ms, 0
  {
    seq(|ms|, i requires 0 <= i < |ms| => Member(ToSnakeCase(ms[i].key), ConvertKeys(ms[i].value)))
  }

  /** The shape `convert_keys_to_snake_case` produces: no dict holds an
      upper-case letter in a key, and no dict holds a key twice. */
  predicate Normal(j: Json)
    decreases j
  {
    match j
    case JArr(items) => forall i :: 0 <= i < |items| ==> Normal(items[i])
    case JObj(ms) =>
      UniqueKeys(ms) && forall i :: 0 <= i < |ms| ==> NoUpper(ms[i].key) && Normal(ms[i].value)
    case _ => true
  }

  /** Converting a value that is already in normal form changes nothing. */
  lemma {:induction false} NormalIsFixed(j: Json)
    requires Normal(j)
    ensures ConvertKeys(j) == j
    decreases j
  {
    match j
    case JArr(items) =>
      forall i | 0 <= i < |items| ensures ConvertKeys(items[i]) == items[i] {
        NormalIsFixed(items[i]);
      }
      assert ConvertKeys(j).items == items;
    case JObj(ms) =>
      var pairs := SnakePairs(ms);
      forall i | 0 <= i < |ms| ensures pairs[i] == ms[i] {
        SnakeOfLower(ms[i].key);
        NormalIsFixed(ms[i].value);
      }
      assert pairs == ms;
      BuildUnique(ms);
    case _ =>
  }

  /** `convert_keys_to_snake_case` is idempotent. */
  lemma ConvertIdempotent(j: Json)
    ensures ConvertKeys(ConvertKeys(j)) == ConvertKeys(j)
  {
    NormalIsFixed(ConvertKeys(j));
  }

  /** Lists keep their order: converting a concatenation is the
      concatenation of the conversions. */
  lemma ConvertListAppend(xs: seq<Json>, ys: seq<Json>)
    ensures ConvertKeys(JArr(xs + ys)).items == ConvertKeys(JArr(xs)).items + ConvertKeys(JArr(ys)).items
  {
    var l := ConvertKeys(JArr(xs + ys)).items;
    var r := ConvertKeys(JArr(xs)).items + ConvertKeys(JArr(ys)).items;
    forall i | 0 <= i < |l| ensures l[i] == r[i] {
      if i < |xs| { assert (xs + ys)[i] == xs[i]; } else { assert (xs + ys)[i] == ys[i - |xs|]; }
    }
  }

  /** For a dict: the output keys are exactly the rewritten input keys, the
      value under a key comes from the LAST input item whose key rewrites to
      it (converted recursively), and colliding keys only shrink the dict. */
  lemma ConvertDict(ms: seq<Member>, k: string)
    ensures var r := ConvertKeys(JObj(ms)).members;
      && Keys(r) == (set i | 0 <= i < |ms| :: ToSnakeCase(ms[i].key))
      && |r| <= |ms|
      && ((forall i :: 0 <= i < |ms| ==> ToSnakeCase(ms[i].key) != k) ==> Get(r, k) == None)
      && (forall i :: 0 <= i < |ms| && ToSnakeCase(ms[i].key) == k
            && (forall i' :: i < i' < |ms| ==> ToSnakeCase(ms[i'].key) != k)
            ==> Get(r, k) == Some(ConvertKeys(ms[i].value)))
  {
    var pairs := SnakePairs(ms);
    assert Keys(pairs) == set i | 0 <= i < |ms| :: ToSnakeCase(ms[i].key);
    forall i | 0 <= i < |ms| && ToSnakeCase(ms[i].key) == k
        && (forall i' :: i < i' < |ms| ==> ToSnakeCase(ms[i'].key) != k)
      ensures Last(pairs, k) == Some(ConvertKeys(ms[i].value))
    {
      LastAt(pairs, k, i);
    }
    if forall i :: 0 <= i < |ms| ==> ToSnakeCase(ms[i].key) != k {
      assert k !in Keys(pairs);
      LastAbsent(pairs, k);
    }
  }

  /** `Last` picks the member at the last position carrying the key. */
  lemma {:induction false} LastAt(ms: seq<Member>, k: string, i: nat)
    requires i < |ms| && ms[i].key == k
    requires forall i' :: i < i' < |ms| ==> ms[i'].key != k
    ensures Last(ms, k) == Some(ms[i].value)
  {
    if i < |ms| - 1 {
      LastAt(ms[..|ms| - 1], k, i);
    }
  }

  lemma {:induction false} LastAbsent(ms: seq<Member>, k: string)
    requires k !in Keys(ms)
    ensures Last(ms, k) == None
  {
    if ms != [] {
      var init := ms[..|ms| - 1];
      assert k !in Keys(init) by {
        forall i | 0 <= i < |init| ensures init[i].key != k { assert init[i] == ms[i]; }
      }
      LastAbsent(init, k);
    }
  }

  // ---------------------------------------------------------------------
  // fetch_data_from_api / fetch_data
  // ---------------------------------------------------------------------

  /** The HTTP response of the GET, taken as an input: its status and its
      body as the JSON text reads, each object as its members in text order
      (a key may repeat); `None` when the body is not valid JSON. */
  datatype Response = Response(status: int, body: Option<Json>)

  /** What `json.loads` hands back: no dict, at any depth, holds a key
      twice. */
  predicate Decoded(j: Json)
    decreases j
  {
    match j
    case JArr(items) => forall i :: 0 <= i < |items| ==> Decoded(items[i])
    case JObj(ms) => UniqueKeys(ms) && forall i :: 0 <= i < |ms| ==> Decoded(ms[i].value)
    case _ => true
  }

  /** `response.json()`: every object of the text becomes a dict built from
      its members in text order, so a repeated key keeps its first position
      and takes its last value; lists keep their items in order. */
  function Decode(j: Json): (r: Json)
    ensures Decoded(r)
    ensures !j.JArr? && !j.JObj? ==> r == j
    ensures j.JArr? ==> r.JArr? && |r.items| == |j.items|
    ensures j.JArr? ==> forall i :: 0 <= i < |j.items| ==> r.items[i] == Decode(j.items[i])
    ensures j.JObj? ==> r.JObj? && Keys(r.members) == Keys(j.members) && |r.members| <= |j.members|
    decreases j
  {
    match j
    case JArr(items) =>
      var r := JArr(seq(|items|, i requires 0 <= i < |items| => Decode(items[i])));
      assert forall i :: 0 <= i < |r.items| ==> Decoded(r.items[i]);
      r
    case JObj(ms) =>
      var pairs := DecodedPairs(ms);
      var b := Build(pairs);
      assert forall i :: 0 <= i < |b| ==> b[i] in pairs;
      assert Keys(pairs) == Keys(ms);
      JObj(b)
    case _ => j
  }

  /** The members of an object with their values decoded, in text order. */
  function DecodedPairs(ms: seq<Member>): (r: seq<Member>)
    ensures |r| == |ms|
    ensures forall i :: 0 <= i < |ms| ==> r[i].key == ms[i].key && r[i].value == Decode(ms[i].value)
    ensures forall x :: x in r ==> Decoded(x.value)
    decreases ms, 0
  {
    seq(|ms|, i requires 0 <= i < |ms| => Member(ms[i].key, Decode(ms[i].value)))
  }

  /** A value `json.loads` could have produced is decoded unchanged. */
  lemma {:induction false} DecodedIsFixed(j: Json)
    requires Decoded(j)
    ensures Decode(j) == j
    decreases j
  {
    match j
    case JArr(items) =>
      forall i | 0 <= i < |items| ensures Decode(items[i]) == items[i] {
        DecodedIsFixed(items[i]);
      }
      assert Decode(j).items == items;
    case JObj(ms) =>
      var pairs := DecodedPairs(ms);
      forall i | 0 <= i < |ms| ensures pairs[i] == ms[i] {
        DecodedIsFixed(ms[i].value);
      }
      assert pairs == ms;
      BuildUnique(ms);
    case _ =>
  }

  /** A key of a decoded object holds the decoded value of its LAST
      occurrence in the text; a key the text does not carry is absent. */
  lemma DecodeDict(ms: seq<Member>, k: string)
    ensures var r := Decode(JObj(ms)).members;
      && (k !in Keys(ms) ==> Get(r, k) == None)
      && (forall i :: 0 <= i < |ms| && ms[i].key == k && (forall i' :: i < i' < |ms| ==> ms[i'].key != k)
            ==> Get(r, k) == Some(Decode(ms[i].value)))
  {
    var pairs := DecodedPairs(ms);
    forall i | 0 <= i < |ms| && ms[i].key == k && (forall i' :: i < i' < |ms| ==> ms[i'].key != k)
      ensures Last(pairs, k) == Some(Decode(ms[i].value))
    {
      LastAt(pairs, k, i);
    }
    if k !in Keys(ms) {
      assert k !in Keys(pairs);
      LastAbsent(pairs, k);
    }
  }

  /** A body `{"aB": 1, "a_b": 2, "aB": 3}`: decoding keeps `aB` with the
      value 3 at the front, so after the key rewrite the later `a_b` wins
      and the fetched dict is `{"a_b": 2}`. */
  lemma RepeatedKeyDecodedFirst()
    ensures var body := JObj([Member("aB", JInt(1)), Member("a_b", JInt(2)), Member("aB", JInt(3))]);
      FetchFromApi<()>(Response(200, Some(body))) == Ok(JObj([Member("a_b", JInt(2))]))
  {
    var body := JObj([Member("aB", JInt(1)), Member("a_b", JInt(2)), Member("aB", JInt(3))]);
    var decoded := [Member("aB", JInt(3)), Member("a_b", JInt(2))];
    DecodeRepeated(body.members);
    ConvertCollision(decoded);
  }

  lemma DecodeRepeated(ms: seq<Member>)
    requires ms == [Member("aB", JInt(1)), Member("a_b", JInt(2)), Member("aB", JInt(3))]
    ensures Decode(JObj(ms)) == JObj([Member("aB", JInt(3)), Member("a_b", JInt(2))])
  {
    var pairs := DecodedPairs(ms);
    var m0, m1, m2 := ms[0], ms[1], ms[2];
    assert pairs == ms;
    assert m0.key != m1.key && m2.key == m0.key by {}
    assert pairs[..2][..1] == [m0] && pairs[..2] == [m0, m1];
    assert Build([m0]) == [m0] by {
      assert [m0][..0] == [];
    }
    assert Build([m0, m1]) == [m0, m1] by {
      assert [m0, m1][..1] == [m0];
      assert Put([m0], m1) == [m0] + Put([], m1);
    }
    assert Build(pairs) == Put([m0, m1], m2);
    assert Put([m0, m1], m2) == [m2] + [m0, m1][1..];
  }

  lemma SnakeOfAB()
    ensures ToSnakeCase("aB") == "a_b" && ToSnakeCase("a_b") == "a_b"
  {
    assert ToSnakeCase("aB") == "a_b" by {
      assert NoUpper("a") && NoUpper("") by {}
      assert "aB" == "a" + ['B'] + "" by {}
      assert "a" + ['_', Lower('B')] + "" == "a_b" by {}
      OneHump("a", 'B', "");
    }
    assert NoUpper("a_b") by {}
    SnakeOfLower("a_b");
  }

  lemma ConvertCollision(ms: seq<Member>)
    requires ms == [Member("aB", JInt(3)), Member("a_b", JInt(2))]
    ensures ConvertKeys(JObj(ms)) == JObj([Member("a_b", JInt(2))])
  {
    SnakeOfAB();
    var snake := SnakePairs(ms);
    var s0, s1 := Member("a_b", JInt(3)), Member("a_b", JInt(2));
    assert snake[0] == s0 by {
      assert ms[0].key == "aB" && ms[0].value == JInt(3);
    }
    assert snake[1] == s1 by {
      assert ms[1].key == "a_b" && ms[1].value == JInt(2);
    }
    assert snake == [s0, s1];
    assert Build([s0]) == [s0] by {
      assert [s0][..0] == [];
    }
    assert snake[..1] == [s0];
    assert Build(snake) == Put([s0], s1);
    assert Put([s0], s1) == [s1];
  }

  /** Why a fetch fails: a status other than 200, a body that is not JSON,
      a payload that cannot be iterated, or the first item that the
      validation model rejects. */
  datatype FetchError<+E> =
    | BadStatus(status: int)
    | Undecodable
    | NotIterable
    | Invalid(index: nat, cause: E)

  /** `fetch_data_from_api`: only status 200 yields data, and the data is
      the decoded body with its keys normalised. */
  function FetchFromApi<E>(resp: Response): (r: Result<Json, FetchError<E>>)
    ensures resp.status != 200 ==> r == Err(BadStatus(resp.status))
    ensures r.Ok? <==> resp.status == 200 && resp.body.Some?
    ensures r.Ok? ==> r.value == ConvertKeys(Decode(resp.body.value)) && Normal(r.value)
  {
    if resp.status != 200 then Err(BadStatus(resp.status))
    else if resp.body.None? then Err(Undecodable)
    else Ok(ConvertKeys(Decode(resp.body.value)))
  }

  /** What `for item in data` visits: the elements of a list, the keys of a
      dict, the one-character strings of a string; any other value cannot
      be iterated. */
  function Iterate(j: Json): (r: Option<seq<Json>>)
    ensures r.Some? <==> j.JArr? || j.JObj? || j.JStr?
    ensures j.JArr? ==> r == Some(j.items)
    ensures j.JObj? ==> |r.value| == |j.members| && forall i :: 0 <= i < |j.members| ==> r.value[i] == JStr(j.members[i].key)
    ensures j.JStr? ==> |r.value| == |j.s| && forall i :: 0 <= i < |j.s| ==> r.value[i] == JStr([j.s[i]])
  {
    match j
    case JArr(items) => Some(items)
    case JObj(ms) => Some(seq(|ms|, i requires 0 <= i < |ms| => JStr(ms[i].key)))
    case JStr(s) => Some(seq(|s|, i requires 0 <= i < |s| => JStr([s[i]])))
    case _ => None
  }

  /** `[validation_model(**item) for item in items]`: the comprehension
      stops at the first item that fails, and that failure is the result. */
  function ValidateAll<T, E>(items: seq<Json>, validate: Json -> Result<T, E>): (r: Result<seq<T>, FetchError<E>>)
    ensures r.Ok? <==> forall i :: 0 <= i < |items| ==> validate(items[i]).Ok?
    ensures r.Ok? ==> |r.value| == |items| && forall i :: 0 <= i < |items| ==> validate(items[i]) == Ok(r.value[i])
    ensures r.Err? ==> && r.error.Invalid? && r.error.index < |items|
                       && validate(items[r.error.index]) == Err(r.error.cause)
                       && forall i :: 0 <= i < r.error.index ==> validate(items[i]).Ok?
  {
    if items == [] then Ok([])
    else
      match validate(items[0])
      case Err(e) => Err(Invalid(0, e))
      case Ok(x) =>
        match ValidateAll(items[1..], validate)
        case Err(e) => Err(Invalid(e.index + 1, e.cause))
        case Ok(rest) => Ok([x] + rest)
  }

  /** The items `fetch_data` validates, or `None` when the fetch itself
      fails or the payload cannot be iterated. */
  function Payload(resp: Response): Option<seq<Json>>
  {
    if resp.status == 200 && resp.body.Some? then Iterate(ConvertKeys(Decode(resp.body.value))) else None
  }

  /** `fetch_data(api_url, validation_model)`: all or nothing. Either every
      item validates and there is one record per item, in order, or the
      whole batch fails. */
  function FetchData<T, E>(resp: Response, validate: Json -> Result<T, E>): (r: Result<seq<T>, FetchError<E>>)
    ensures resp.status != 200 ==> r == Err(BadStatus(resp.status))
    ensures r.Ok? <==> Payload(resp).Some? && forall i :: 0 <= i < |Payload(resp).value| ==> validate(Payload(resp).value[i]).Ok?
    ensures r.Ok? ==> var items := Payload(resp).value;
      |r.value| == |items| && forall i :: 0 <= i < |items| ==> validate(items[i]) == Ok(r.value[i])
  {
    var data :- FetchFromApi(resp);
    match Iterate(data)
    case None => Err(NotIterable)
    case Some(items) => ValidateAll(items, validate)
  }

  /** An empty dict and an empty string are iterable and empty, so a 200
      response with either body yields an empty batch. */
  lemma EmptyPayloads<T, E>(validate: Json -> Result<T, E>)
    ensures FetchData(Response(200, Some(JObj([]))), validate) == Ok([])
    ensures FetchData(Response(200, Some(JStr(""))), validate) == Ok([])
    ensures FetchData(Response(200, Some(JNull)), validate) == Err(NotIterable)
  {
  }
}
