/** The string logic of `BaseCrudService`: the resource name derived from the
    resource path, the JSON-schema file names, and the requests the raw CRUD
    methods send (verb, path, query parameters). The HTTP exchange itself is
    not modelled; a request is a value. */
module CrudPaths {
  import opened Wrappers
  import opened JavaTypes

  // ---------------------------------------------------------------------
  // resourceName

  /** The characters `java.util.regex` treats as line terminators. */
  predicate IsLineTerminator(c: char) {
    c == '\n' || c == '\r' || c == '\U{0085}' || c == '\U{2028}' || c == '\U{2029}'
  }

  /** `replaceAll("^/", "")`: `^` matches only at the start of the input, so
      at most the first character is removed. */
  function StripLeadingSlash(p: string): (r: string)
    ensures |p| > 0 && p[0] == '/' ==> r == p[1..]
    ensures !(|p| > 0 && p[0] == '/') ==> r == p
  {
    if |p| > 0 && p[0] == '/' then p[1..] else p
  }

  /** `replaceAll("s$", "")`. Without MULTILINE, `$` matches at the end of the
      input and also just before a line terminator that ends the input, "\r\n"
      counting as one terminator. At most one "s" stands before such a
      position, so at most one character is removed. */
  function StripTrailingS(t: string): (r: string)
  {
    var n := |t|;
    if n >= 1 && t[n - 1] == 's' then t[..n - 1]
    else if n >= 2 && IsLineTerminator(t[n - 1]) && t[n - 2] == 's' then t[..n - 2] + t[n - 1..]
    else if n >= 3 && t[n - 2..] == "\r\n" && t[n - 3] == 's' then t[..n - 3] + "\r\n"
    else t
  }

  /** BaseCrudService.java:30, computed once by the constructor. */
  function ResourceName(resourcePath: string): (name: string)
    ensures |resourcePath| - 2 <= |name| <= |resourcePath|
  {
    StripTrailingS(StripLeadingSlash(resourcePath))
  }

  /** For a path that does not end with a line terminator, the name is the
      path with at most one leading "/" and at most one trailing "s" removed:
      a "/" in front is always removed, and an "s" at the end is removed
      exactly when the remainder ends with one. */
  lemma ResourceNameStrips(resourcePath: string)
    requires |resourcePath| == 0 || !IsLineTerminator(resourcePath[|resourcePath| - 1])
    ensures var name := ResourceName(resourcePath);
            var i := if |resourcePath| > 0 && resourcePath[0] == '/' then 1 else 0;
            && i + |name| <= |resourcePath| <= i + |name| + 1
            && name == resourcePath[i..i + |name|]
            && (i + |name| < |resourcePath| <==> |resourcePath| > i && resourcePath[|resourcePath| - 1] == 's')
  {
    var t := StripLeadingSlash(resourcePath);
    var n := |t|;
    if n >= 2 && t[n - 2..] == "\r\n" {
      assert t[n - 1] == '\n';
    }
  }

  /** "/" + x + "s" names the resource x, whatever x is; "/todos" names "todo". */
  lemma ResourceNameOfPluralPath(x: string)
    ensures ResourceName("/" + x + "s") == x
    ensures ResourceName("/todos") == "todo"
  {
    var p := "/" + x + "s";
    assert StripLeadingSlash(p) == x + "s";
    assert (x + "s")[..|x|] == x;
    assert "/todos" == "/" + "todo" + "s";
  }

  /** The regex quirk: before a final line terminator the trailing "s" is
      still removed, and the terminator stays. */
  lemma ResourceNameBeforeLineTerminator(x: string, c: char)
    requires IsLineTerminator(c)
    ensures ResourceName("/" + x + "s" + [c]) == x + [c]
  {
    var p := "/" + x + "s" + [c];
    var t := x + "s" + [c];
    assert StripLeadingSlash(p) == t;
    assert t[..|x|] == x && t[|x| + 1..] == [c];
  }

  // ---------------------------------------------------------------------
  // Schema file names

  /** `getSingleSchema()`, BaseCrudService.java:124-126. */
  function SingleSchema(resourcePath: string): (file: string)
    ensures |file| == |ResourceName(resourcePath)| + 20
  {
    "schemas/" + ResourceName(resourcePath) + "-schema.json"
  }

  /** `getListSchema()`, BaseCrudService.java:131-133. */
  function ListSchema(resourcePath: string): (file: string)
    ensures |file| == |ResourceName(resourcePath)| + 25
  {
    "schemas/" + ResourceName(resourcePath) + "-list-schema.json"
  }

  lemma InfixOf(a: string, m: string, b: string)
    ensures (a + m + b)[|a|..|a| + |m|] == m
  {
  }

  /** The single-entity schema name determines the resource name. */
  lemma SingleSchemaInjective(p: string, q: string)
    ensures SingleSchema(p) == SingleSchema(q) <==> ResourceName(p) == ResourceName(q)
  {
    if SingleSchema(p) == SingleSchema(q) {
      InfixOf("schemas/", ResourceName(p), "-schema.json");
      InfixOf("schemas/", ResourceName(q), "-schema.json");
    }
  }

  /** The list schema name determines the resource name. */
  lemma ListSchemaInjective(p: string, q: string)
    ensures ListSchema(p) == ListSchema(q) <==> ResourceName(p) == ResourceName(q)
  {
    if ListSchema(p) == ListSchema(q) {
      InfixOf("schemas/", ResourceName(p), "-list-schema.json");
      InfixOf("schemas/", ResourceName(q), "-list-schema.json");
    }
  }

  /** A single-entity schema name coincides with a list schema name exactly
      when the first resource is named like the second plus "-list"; in
      particular one service's two schema names always differ. */
  lemma SchemaNamesCollide(p: string, q: string)
    ensures SingleSchema(p) == ListSchema(q) <==> ResourceName(p) == ResourceName(q) + "-list"
    ensures SingleSchema(p) != ListSchema(p)
  {
    var rp, rq := ResourceName(p), ResourceName(q);
    var single, list := SingleSchema(p), ListSchema(q);
    assert list == "schemas/" + (rq + "-list") + "-schema.json" by {
      assert "-list-schema.json" == "-list" + "-schema.json";
    }
    if single == list {
      InfixOf("schemas/", rp, "-schema.json");
      InfixOf("schemas/", rq + "-list", "-schema.json");
    }
  }

  // ---------------------------------------------------------------------
  // Decimal rendering of identifiers (`String.valueOf(long)`)

  predicate IsDigit(c: char) {
    '0' <= c <= '9'
  }

  function DigitChar(d: int): (c: char)
    requires 0 <= d < 10
    ensures IsDigit(c)
  {
    ('0' as int + d) as char
  }

  /** The decimal digits of a natural number, without leading zeros. */
  function Digits(n: nat): (s: string)
    ensures |s| >= 1
    ensures forall i :: 0 <= i < |s| ==> IsDigit(s[i])
    decreases n
  {
    if n < 10 then [DigitChar(n)] else Digits(n / 10) + [DigitChar(n % 10)]
  }

  /** `Long.toString`: a minus sign for negative values, then the digits. */
  function Decimal(n: int): (s: string)
    ensures |s| >= 1 && (s[0] == '-' <==> n < 0)
  {
    if n < 0 then "-" + Digits(-n) else Digits(n)
  }

  /** Reading a digit string back; None for an empty string or a non-digit. */
  function ParseDigits(s: string): (r: Option<nat>)
    decreases |s|
  {
    if |s| == 0 || !IsDigit(s[|s| - 1]) then None
    else if |s| == 1 then Some(s[0] as int - '0' as int)
    else match ParseDigits(s[..|s| - 1])
      case Some(v) => Some(v * 10 + (s[|s| - 1] as int - '0' as int))
      case None => None
  }

  /** Reading an optionally signed decimal back. */
  function ParseDecimal(s: string): (r: Option<int>)
  {
    if |s| > 0 && s[0] == '-' then
      match ParseDigits(s[1..])
      case Some(v) => Some(-(v as int))
      case None => None
    else
      match ParseDigits(s)
      case Some(v) => Some(v)
      case None => None
  }

  lemma {:induction false} ParseDigitsOfDigits(n: nat)
    ensures ParseDigits(Digits(n)) == Some(n)
    decreases n
  {
    if n >= 10 {
      var s := Digits(n);
      assert s == Digits(n / 10) + [DigitChar(n % 10)];
      assert s[..|s| - 1] == Digits(n / 10);
      ParseDigitsOfDigits(n / 10);
    }
  }

  /** Reading the rendering of an identifier gives the identifier back. */
  lemma ParseDecimalOfDecimal(n: int)
    ensures ParseDecimal(Decimal(n)) == Some(n)
  {
    if n < 0 {
      assert Decimal(n)[1..] == Digits(-n);
      ParseDigitsOfDigits(-n);
    } else {
      ParseDigitsOfDigits(n);
    }
  }

  // ---------------------------------------------------------------------
  // Requests of the raw CRUD methods

  /** The request a raw method hands to the HTTP layer: `get(path)`,
      `get(path, queryParams)`, `post(path, body)`, `put(path, body)` and
      `delete(path)` of `BaseApiService`. */
  datatype Request<B, V> =
    | Get(path: string)
    | GetWithParams(path: string, params: map<string, V>)
    | Post(path: string, body: B)
    | Put(path: string, body: B)
    | Delete(path: string)

  /** The path of one entity: `resourcePath + "/" + id`. */
  function ItemPath(resourcePath: string, id: Long): (path: string)
    ensures |path| > |resourcePath| + 1
  {
    resourcePath + "/" + Decimal(id)
  }

  /** The identifier an entity path names under `resourcePath`, if any. */
  function ItemId(resourcePath: string, path: string): (r: Option<int>)
  {
    var k := |resourcePath|;
    if |path| > k && path[..k + 1] == resourcePath + "/" then ParseDecimal(path[k + 1..]) else None
  }

  /** The entity path names its identifier, and the collection path names
      none. */
  lemma ItemIdOfItemPath(resourcePath: string, id: Long)
    ensures ItemId(resourcePath, ItemPath(resourcePath, id)) == Some(id)
    ensures ItemId(resourcePath, resourcePath) == None
  {
    var path := ItemPath(resourcePath, id);
    var k := |resourcePath|;
    assert path[..k + 1] == resourcePath + "/";
    assert path[k + 1..] == Decimal(id);
    ParseDecimalOfDecimal(id);
  }

  /** Distinct identifiers address distinct entity paths. */
  lemma ItemPathInjective(resourcePath: string, a: Long, b: Long)
    ensures ItemPath(resourcePath, a) == ItemPath(resourcePath, b) <==> a == b
  {
    ItemIdOfItemPath(resourcePath, a);
    ItemIdOfItemPath(resourcePath, b);
  }

  /** `createRaw`, BaseCrudService.java:94-96: a POST to the collection. */
  function CreateRaw<B, V>(resourcePath: string, payload: B): (r: Request<B, V>)
    ensures r.Post? && r.body == payload
    ensures r.path == resourcePath && ItemId(resourcePath, r.path) == None
  {
    Post(resourcePath, payload)
  }

  /** `getByIdRaw`, BaseCrudService.java:99-101. */
  function GetByIdRaw<B, V>(resourcePath: string, id: Long): (r: Request<B, V>)
    ensures r.Get? && ItemId(resourcePath, r.path) == Some(id)
  {
    ItemIdOfItemPath(resourcePath, id);
    Get(ItemPath(resourcePath, id))
  }

  /** `updateRaw`, BaseCrudService.java:104-106. */
  function UpdateRaw<B, V>(resourcePath: string, id: Long, payload: B): (r: Request<B, V>)
    ensures r.Put? && r.body == payload && ItemId(resourcePath, r.path) == Some(id)
  {
    ItemIdOfItemPath(resourcePath, id);
    Put(ItemPath(resourcePath, id), payload)
  }

  /** `deleteRaw`, BaseCrudService.java:109-111. */
  function DeleteRaw<B, V>(resourcePath: string, id: Long): (r: Request<B, V>)
    ensures r.Delete? && ItemId(resourcePath, r.path) == Some(id)
  {
    ItemIdOfItemPath(resourcePath, id);
    Delete(ItemPath(resourcePath, id))
  }

  /** Get-by-id, update and delete of one identifier address the same path. */
  lemma ItemRequestsShareOnePath<B, V>(resourcePath: string, id: Long, payload: B)
    ensures GetByIdRaw<B, V>(resourcePath, id).path == UpdateRaw<B, V>(resourcePath, id, payload).path
            == DeleteRaw<B, V>(resourcePath, id).path == ItemPath(resourcePath, id)
  {
  }

  /** `getAllRaw`, BaseCrudService.java:114-119: `None` is a null map. The
      parameterised overload is used only for a non-empty map. */
  function GetAllRaw<B, V>(resourcePath: string, queryParams: Option<map<string, V>>): (r: Request<B, V>)
    ensures r.path == resourcePath
    ensures r.Get? || r.GetWithParams?
    ensures r.GetWithParams? <==> queryParams.Some? && queryParams.value != map[]
    ensures r.GetWithParams? ==> r.params == queryParams.value
  {
    if queryParams.None? || queryParams.value == map[] then Get(resourcePath)
    else GetWithParams(resourcePath, queryParams.value)
  }

  /** `getAll()`, BaseCrudService.java:88-90: the empty map. */
  function GetAll<B, V>(resourcePath: string): (r: Request<B, V>)
    ensures r == Get(resourcePath)
  {
    GetAllRaw(resourcePath, Some(map[]))
  }

  /** The query a listing request carries: none for a plain GET. */
  function QueryOf<B, V>(r: Request<B, V>): map<string, V> {
    if r.GetWithParams? then r.params else map[]
  }

  /** Whichever overload is chosen, the query sent is the given map, and a
      null map sends the same request as an empty one. */
  lemma GetAllRawSendsParams<B, V>(resourcePath: string, queryParams: Option<map<string, V>>)
    ensures QueryOf(GetAllRaw<B, V>(resourcePath, queryParams))
            == (if queryParams.None? then map[] else queryParams.value)
    ensures GetAllRaw<B, V>(resourcePath, None) == GetAllRaw<B, V>(resourcePath, Some(map[]))
  {
  }
}
