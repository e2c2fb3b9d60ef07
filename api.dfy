/** The request layer: the configured HTTP client's request interceptor and
    the fixed table of verbs and paths behind each per-resource API object. */
module Api {
  import opened Wrappers
  import Storage

  /** Base address every path below is resolved against. */
  const ApiUrl := "http://localhost:3000/api"

  /** Headers the client is created with. */
  const DefaultHeaders: map<string, string> := map["Content-Type" := "application/json"]

  /** The user record returned by the authentication endpoints. */
  datatype User = User(id: int, username: string, email: string, bio: string,
                       createdAt: string, updatedAt: string)

  datatype Verb = Get | Post | Put | Patch | Delete

  datatype Endpoint = Endpoint(verb: Verb, path: string)

  const LoginEndpoint := Endpoint(Post, "/auth/login")
  const RegisterEndpoint := Endpoint(Post, "/auth/register")
  const ProfileEndpoint := Endpoint(Get, "/auth/profile")
  /** `userAPI.getProfile` */
  const UserProfileEndpoint := Endpoint(Get, "/user")

  /** The per-resource API objects. */
  datatype Resource =
    | PostsApi | BudgetApi | PackingApi | ItineraryApi | CulinaryApi
    | PackingListApi | ItineraryActivityApi

  /** The functions of a resource object; `GetById` also stands for
      `packingAPI.getOne`. */
  datatype Op = GetAll | GetById(id: int) | Create | Update(id: int) | Remove(id: int)

  predicate IsItemOp(op: Op) {
    op.GetById? || op.Update? || op.Remove?
  }

  /** The collection segment of each resource's paths. */
  function Collection(r: Resource): string {
    match r
    case PostsApi => "posts"
    case BudgetApi => "budget"
    case PackingApi => "packing"
    case ItineraryApi => "itineraries"
    case CulinaryApi => "culinary"
    case PackingListApi => "packing"
    case ItineraryActivityApi => "itinerary-activities"
  }

  // ---------------------------------------------------------------------
  // Decimal rendering of ids, as a template literal `${id}` renders an
  // integer, and its inverse.

  function Digit(d: nat): char
    requires d < 10
  {
    "0123456789"[d]
  }

  function DigitValue(c: char): nat {
    if '0' <= c <= '9' then (c as int - '0' as int) as nat else 0
  }

  function NatString(n: nat): (s: string)
    ensures |s| > 0
    ensures forall i :: 0 <= i < |s| ==> '0' <= s[i] <= '9'
  {
    if n < 10 then [Digit(n)] else NatString(n / 10) + [Digit(n % 10)]
  }

  function IdString(id: int): string {
    if id < 0 then "-" + NatString(-id) else NatString(id)
  }

  function ParseNat(s: string): nat {
    if |s| == 0 then 0 else ParseNat(s[..|s| - 1]) * 10 + DigitValue(s[|s| - 1])
  }

  function ParseId(s: string): int {
    if |s| > 0 && s[0] == '-' then -(ParseNat(s[1..]) as int) else ParseNat(s)
  }

  lemma {:induction false} ParseNatString(n: nat)
    ensures ParseNat(NatString(n)) == n
  {
    if n >= 10 {
      var s := NatString(n / 10);
      ParseNatString(n / 10);
      assert (s + [Digit(n % 10)])[..|s|] == s;
    }
  }

  /** Reading back a rendered natural number with a leading minus sign
      gives its negation. */
  lemma NegatedRoundTrip(n: nat)
    requires n > 0
    ensures ParseId(IdString(-(n as int))) == -(n as int)
  {
    var digits := NatString(n);
    var t := "-" + digits;
    assert IdString(-(n as int)) == t;
    assert t[0] == '-' && t[1..] == digits;
    ParseNatString(n);
  }

  /** Reading back a rendered natural number gives the number. */
  lemma NatRoundTrip(n: nat)
    ensures ParseId(IdString(n)) == n
  {
    var digits := NatString(n);
    assert IdString(n) == digits;
    assert '0' <= digits[0] <= '9';
    ParseNatString(n);
  }

  /** Rendering an id and reading it back gives the id: distinct ids give
      distinct strings. */
  lemma {:induction false} IdStringRoundTrip(id: int)
    ensures ParseId(IdString(id)) == id
  {
    if id < 0 {
      NegatedRoundTrip(-id);
    } else {
      NatRoundTrip(id);
    }
  }

  function ItemPath(r: Resource, id: int): string {
    "/" + Collection(r) + "/" + IdString(id)
  }

  /** The verb and path of each function of each resource object; `None` for
      a function the object does not have. */
  function Route(r: Resource, op: Op): (e: Option<Endpoint>)
    ensures e.None? <==> r == ItineraryActivityApi && IsItemOp(op)
  {
    match r
    case PostsApi =>
      (match op
       case GetAll => Some(Endpoint(Get, "/posts"))
       case GetById(id) => Some(Endpoint(Get, "/posts/" + IdString(id)))
       case Create => Some(Endpoint(Post, "/posts"))
       case Update(id) => Some(Endpoint(Put, "/posts/" + IdString(id)))
       case Remove(id) => Some(Endpoint(Delete, "/posts/" + IdString(id))))
    case BudgetApi =>
      (match op
       case GetAll => Some(Endpoint(Get, "/budget"))
       case GetById(id) => Some(Endpoint(Get, "/budget/" + IdString(id)))
       case Create => Some(Endpoint(Post, "/budget"))
       case Update(id) => Some(Endpoint(Put, "/budget/" + IdString(id)))
       case Remove(id) => Some(Endpoint(Delete, "/budget/" + IdString(id))))
    case PackingApi =>
      (match op
       case GetAll => Some(Endpoint(Get, "/packing"))
       case GetById(id) => Some(Endpoint(Get, "/packing/" + IdString(id)))
       case Create => Some(Endpoint(Post, "/packing"))
       case Update(id) => Some(Endpoint(Put, "/packing/" + IdString(id)))
       case Remove(id) => Some(Endpoint(Delete, "/packing/" + IdString(id))))
    case ItineraryApi =>
      (match op
       case GetAll => Some(Endpoint(Get, "/itineraries"))
       case GetById(id) => Some(Endpoint(Get, "/itineraries/" + IdString(id)))
       case Create => Some(Endpoint(Post, "/itineraries"))
       case Update(id) => Some(Endpoint(Patch, "/itineraries/" + IdString(id)))
       case Remove(id) => Some(Endpoint(Delete, "/itineraries/" + IdString(id))))
    case CulinaryApi =>
      (match op
       case GetAll => Some(Endpoint(Get, "/culinary"))
       case GetById(id) => Some(Endpoint(Get, "/culinary/" + IdString(id)))
       case Create => Some(Endpoint(Post, "/culinary"))
       case Update(id) => Some(Endpoint(Patch, "/culinary/" + IdString(id)))
       case Remove(id) => Some(Endpoint(Delete, "/culinary/" + IdString(id))))
    case PackingListApi =>
      (match op
       case GetAll => Some(Endpoint(Get, "/packing"))
       case GetById(id) => Some(Endpoint(Get, "/packing/" + IdString(id)))
       case Create => Some(Endpoint(Post, "/packing"))
       case Update(id) => Some(Endpoint(Put, "/packing/" + IdString(id)))
       case Remove(id) => Some(Endpoint(Delete, "/packing/" + IdString(id))))
    case ItineraryActivityApi =>
      (match op
       case GetAll => Some(Endpoint(Get, "/itinerary-activities"))
       case Create => Some(Endpoint(Post, "/itinerary-activities"))
       case _ => None)
  }

  /** The paths follow one pattern: `getAll` is GET and `create` is POST on
      the bare collection path; every item operation addresses
      "/" + collection + "/" + id; `update` is PATCH for itineraries and
      culinary and PUT everywhere else; `delete` is DELETE. */
  lemma RouteLaws(r: Resource, op: Op)
    ensures op.GetAll? ==> Route(r, op) == Some(Endpoint(Get, "/" + Collection(r)))
    ensures op.Create? ==> Route(r, op) == Some(Endpoint(Post, "/" + Collection(r)))
    ensures Route(r, op).Some? && IsItemOp(op) ==> Route(r, op).value.path == ItemPath(r, op.id)
    ensures Route(r, op).Some? && op.GetById? ==> Route(r, op).value.verb == Get
    ensures Route(r, op).Some? && op.Remove? ==> Route(r, op).value.verb == Delete
    ensures Route(r, op).Some? && op.Update? ==>
              Route(r, op).value.verb == if r == ItineraryApi || r == CulinaryApi then Patch else Put
  {
    var c := Collection(r);
    match r
    case PostsApi => assert "/" + c == "/posts" && "/" + c + "/" == "/posts/";
    case BudgetApi => assert "/" + c == "/budget" && "/" + c + "/" == "/budget/";
    case PackingApi => assert "/" + c == "/packing" && "/" + c + "/" == "/packing/";
    case ItineraryApi => assert "/" + c == "/itineraries" && "/" + c + "/" == "/itineraries/";
    case CulinaryApi => assert "/" + c == "/culinary" && "/" + c + "/" == "/culinary/";
    case PackingListApi => assert "/" + c == "/packing" && "/" + c + "/" == "/packing/";
    case ItineraryActivityApi => assert "/" + c == "/itinerary-activities";
  }

  /** An item path names one id: two item operations of one resource that
      reach the same path address the same id. */
  lemma ItemPathInjective(r: Resource, a: int, b: int)
    requires ItemPath(r, a) == ItemPath(r, b)
    ensures a == b
  {
    var prefix := "/" + Collection(r) + "/";
    assert ItemPath(r, a)[|prefix|..] == IdString(a);
    assert ItemPath(r, b)[|prefix|..] == IdString(b);
    IdStringRoundTrip(a);
    IdStringRoundTrip(b);
  }

  /** `packingListAPI` and `packingAPI` address the same verb and path for
      every operation. */
  lemma PackingListSameAsPacking(op: Op)
    ensures Route(PackingListApi, op) == Route(PackingApi, op)
  {
  }

  // ---------------------------------------------------------------------
  // The request interceptor.

  /** The mutable request configuration the interceptor receives. */
  class RequestConfig {
    var verb: Verb
    /** The instance's base address; the request goes to `baseURL + url`. */
    var baseURL: string
    var url: string
    var headers: map<string, string>

    constructor (e: Endpoint)
      ensures verb == e.verb && baseURL == ApiUrl && url == e.path
      ensures headers == DefaultHeaders
    {
      verb := e.verb;
      baseURL := ApiUrl;
      url := e.path;
      headers := DefaultHeaders;
    }
  }

  /** The bearer credential sent for a stored token, or `None` when the stored
      value is absent or empty (both falsy). */
  function Bearer(stored: Option<string>): Option<string> {
    if Storage.Truthy(stored) then Some("Bearer " + stored.value) else None
  }

  /** The server reads the token back out of the credential. */
  function TokenOf(credential: string): Option<string> {
    if |credential| > 7 && credential[..7] == "Bearer " then Some(credential[7..]) else None
  }

  /** Exactly the non-empty stored tokens produce a credential, and the
      credential carries the stored token unchanged. */
  lemma BearerCarriesToken(stored: Option<string>)
    ensures Bearer(stored).Some? <==> Storage.Truthy(stored)
    ensures Bearer(stored).Some? ==> TokenOf(Bearer(stored).value) == stored
  {
    if Storage.Truthy(stored) {
      var c := "Bearer " + stored.value;
      assert c[..7] == "Bearer " && c[7..] == stored.value;
    }
  }

  /** Reads the persisted token and, when it is present and non-empty, sets
      the `Authorization` header in place; returns the same configuration. */
  method Intercept(config: RequestConfig, storage: Storage.LocalStorage) returns (r: RequestConfig)
    modifies config`headers
    ensures r == config
    ensures Bearer(storage.token).Some? ==>
              config.headers == old(config.headers)["Authorization" := Bearer(storage.token).value]
    ensures Bearer(storage.token).None? ==> config.headers == old(config.headers)
  {
    var token := storage.token;
    if Storage.Truthy(token) {
      config.headers := config.headers["Authorization" := "Bearer " + token.value];
    }
    r := config;
  }
}
