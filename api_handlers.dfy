/**
 * The generated HTTP layer of hw5_codegen: the parameter structs' Unmarshall
 * methods, the handlers' decision order and the ServeHTTP routing. The
 * business methods (MyApi.Profile, MyApi.Create, OtherApi.Create) are not
 * part of this model: each is a parameter that maps the validated
 * parameters to what the call returned.
 */
module ApiHandlers {
  import opened Wrappers
  import opened GoStrings
  import opened Strconv
  import opened UrlValues

  // ---------------------------------------------------------------------
  // Enumerations checked with a pipe-delimited substring test.

  const StatusOptions: seq<string> := ["user", "moderator", "admin"]
  const ClassOptions: seq<string> := ["warrior", "sorcerer", "rouge"]

  /** The options between bars: ["a", "b"] gives "|a|b|". */
  function Bars(options: seq<string>): string {
    if options == [] then "|" else "|" + options[0] + Bars(options[1..])
  }

  /** The generated enum test: "|" + s + "|" is a substring of the barred options. */
  predicate InEnum(options: seq<string>, s: string) {
    Contains(Bars(options), "|" + s + "|")
  }

  /** The message the generated code builds for a value outside the enum. */
  function EnumError(field: string, options: seq<string>): string {
    field + " must be one of [" + ReplaceChar(Join(options, "|"), '|', ", ") + "]"
  }

  /** `v`, or `default` when `v` is empty. */
  function OrDefault(v: string, default: string): (r: string)
    ensures r != "" || default == ""
  {
    if v == "" then default else v
  }

  lemma OccursInSuffix(p: string, u: string, sub: string, j: int)
    requires j >= |p|
    ensures OccursAt(p + u, sub, j) <==> OccursAt(u, sub, j - |p|)
  {
    if OccursAt(p + u, sub, j) || OccursAt(u, sub, j - |p|) {
      assert (p + u)[j..j + |sub|] == u[j - |p|..j - |p| + |sub|];
    }
  }

  /** A barred value at the start of "|" + o + u, with u starting with a bar, is o. */
  lemma BarredAtStart(o: string, u: string, s: string)
    requires '|' !in o && '|' !in s && |u| > 0 && u[0] == '|'
    requires OccursAt("|" + o + u, "|" + s + "|", 0)
    ensures s == o
  {
    var t, sub := "|" + o + u, "|" + s + "|";
    assert t[..|sub|] == sub;
    assert forall k :: 0 <= k < |o| ==> t[k + 1] == o[k];
    assert forall k :: 0 <= k < |s| ==> t[k + 1] == sub[k + 1] == s[k];
    assert t[|o| + 1] == '|';
    assert t[|s| + 1] == sub[|s| + 1] == '|';
    assert |s| == |o|;
    assert t[1..|o| + 1] == o;
    assert t[1..|s| + 1] == sub[1..|s| + 1] == s;
  }

  lemma OccursStart(t: string, sub: string, j: int)
    requires |sub| > 0 && 0 <= j < |t|
    ensures OccursAt(t, sub, j) ==> t[j] == sub[0]
  {
    if OccursAt(t, sub, j) {
      assert t[j..j + |sub|][0] == sub[0];
    }
  }

  /** Nothing that starts with a bar occurs inside the bar-free word o. */
  lemma NotInsideWord(o: string, u: string, sub: string, j: int)
    requires '|' !in o && |sub| > 0 && sub[0] == '|' && 1 <= j <= |o|
    ensures !OccursAt("|" + o + u, sub, j)
  {
    var t := "|" + o + u;
    assert t[j] == o[j - 1];
    OccursStart(t, sub, j);
  }

  /** For bar-free values, the substring test is exactly membership. */
  lemma {:induction false} EnumMembership(options: seq<string>, s: string)
    requires forall k :: 0 <= k < |options| ==> '|' !in options[k]
    requires '|' !in s
    ensures InEnum(options, s) <==> s in options
  {
    var sub := "|" + s + "|";
    var t := Bars(options);
    ContainsIff(t, sub);
    if options == [] {
      assert forall j :: !OccursAt(t, sub, j);
    } else {
      var o, rest := options[0], options[1..];
      var p := "|" + o;
      assert t == p + Bars(rest);
      assert Bars(rest)[0] == '|';
      EnumMembership(rest, s);
      ContainsIff(Bars(rest), sub);
      forall j | OccursAt(t, sub, j) ensures s == o || s in rest {
        if j == 0 {
          BarredAtStart(o, Bars(rest), s);
        } else if j > |o| {
          OccursInSuffix(p, Bars(rest), sub, j);
        } else {
          NotInsideWord(o, Bars(rest), sub, j);
        }
      }
      if s == o {
        assert OccursAt(t, sub, 0) by {
          assert t[..|sub|] == sub;
        }
      } else if s in rest {
        var j :| OccursAt(Bars(rest), sub, j);
        OccursInSuffix(p, Bars(rest), sub, j + |p|);
      }
    }
  }

  /** The status test admits exactly user, moderator and admin among bar-free values. */
  lemma StatusEnum(status: string)
    requires '|' !in status
    ensures InEnum(StatusOptions, status) <==> status in StatusOptions
  {
    EnumMembership(StatusOptions, status);
  }

  /** The class test admits exactly warrior, sorcerer and rouge among bar-free values. */
  lemma ClassEnum(heroClass: string)
    requires '|' !in heroClass
    ensures InEnum(ClassOptions, heroClass) <==> heroClass in ClassOptions
  {
    EnumMembership(ClassOptions, heroClass);
  }

  /** A run of adjacent options passes the substring test too. */
  lemma StatusRunAdmitted()
    ensures InEnum(StatusOptions, "user|moderator")
    ensures "user|moderator" !in StatusOptions
  {
    assert Bars(StatusOptions) == "" + ("|" + "user|moderator" + "|") + "admin|";
    ContainsConcat("", "|" + "user|moderator" + "|", "admin|");
  }

  // ---------------------------------------------------------------------
  // What each Unmarshall reports, in the order it checks.

  function ProfileError(q: Values): Option<string> {
    if Get(q, "login") == "" then Some("login must me not empty") else None
  }

  function CreateError(q: Values): Option<string> {
    var login := Get(q, "login");
    var status := OrDefault(Get(q, "status"), "user");
    if login == "" then Some("login must me not empty")
    else if Utf8Len(login) < 10 then Some("login len must be >= 10")
    else if !InEnum(StatusOptions, status) then Some(EnumError("status", StatusOptions))
    else match Atoi(Get(q, "age"))
      case None => Some("age must be int")
      case Some(age) =>
        if age < 0 then Some("age must be >= 0")
        else if age > 128 then Some("age must be <= 128")
        else None
  }

  function OtherCreateError(q: Values): Option<string> {
    var username := Get(q, "username");
    var heroClass := OrDefault(Get(q, "class"), "warrior");
    if username == "" then Some("username must me not empty")
    else if Utf8Len(username) < 3 then Some("username len must be >= 3")
    else if !InEnum(ClassOptions, heroClass) then Some(EnumError("class", ClassOptions))
    else match Atoi(Get(q, "level"))
      case None => Some("level must be int")
      case Some(level) =>
        if level < 1 then Some("level must be >= 1")
        else if level > 50 then Some("level must be <= 50")
        else None
  }

  /** CreateParams accepts exactly the requests whose login is at least ten
      bytes long, whose status (empty meaning "user") passes the enum test, and
      whose age is an integer from 0 to 128. */
  lemma CreateAccepts(q: Values)
    ensures CreateError(q) == None <==>
      && Get(q, "login") != ""
      && Utf8Len(Get(q, "login")) >= 10
      && InEnum(StatusOptions, OrDefault(Get(q, "status"), "user"))
      && Atoi(Get(q, "age")).Some?
      && 0 <= Atoi(Get(q, "age")).value <= 128
  {
  }

  /** A missing login is reported before anything else, and a short one before the status, the age. */
  lemma CreateErrorOrder(q: Values)
    ensures Get(q, "login") == "" ==> CreateError(q) == Some("login must me not empty")
    ensures Get(q, "login") != "" && Utf8Len(Get(q, "login")) < 10 ==>
              CreateError(q) == Some("login len must be >= 10")
  {
  }

  /** An empty status is read as "user", which passes the enum test. */
  lemma EmptyStatusIsUser(q: Values)
    requires Get(q, "status") == ""
    ensures InEnum(StatusOptions, OrDefault(Get(q, "status"), "user"))
  {
    StatusEnum("user");
  }

  /** OtherCreateParams accepts exactly the requests whose username is at
      least three bytes long, whose class (empty meaning "warrior") passes the
      enum test, and whose level is an integer from 1 to 50. */
  lemma OtherCreateAccepts(q: Values)
    ensures OtherCreateError(q) == None <==>
      && Get(q, "username") != ""
      && Utf8Len(Get(q, "username")) >= 3
      && InEnum(ClassOptions, OrDefault(Get(q, "class"), "warrior"))
      && Atoi(Get(q, "level")).Some?
      && 1 <= Atoi(Get(q, "level")).value <= 50
  {
  }

  // ---------------------------------------------------------------------
  // The parameter structs.

  class ProfileParams {
    var login: string

    constructor ()
      ensures login == ""
    {
      login := "";
    }

    method Unmarshall(q: Values) returns (err: Option<string>)
      modifies this
      ensures login == Get(q, "login")
      ensures err == ProfileError(q)
    {
      login := Get(q, "login");
      if login == "" {
        return Some("login must me not empty");
      }
      return None;
    }
  }

  /** The fields of a CreateParams, as the business method receives them. */
  datatype CreateFields = CreateFields(login: string, name: string, status: string, age: int)

  class CreateParams {
    var login: string
    var name: string
    var status: string
    var age: int

    constructor ()
      ensures login == "" && name == "" && status == "" && age == 0
    {
      login, name, status, age := "", "", "", 0;
    }

    function Fields(): CreateFields
      reads this
    {
      CreateFields(login, name, status, age)
    }

    /** Fills the fields one by one and stops at the first failed check; the
        fields a check stopped before keep their old values. */
    method Unmarshall(q: Values) returns (err: Option<string>)
      modifies this
      ensures err == CreateError(q)
      ensures login == Get(q, "login")
      ensures var reached := login != "" && Utf8Len(login) >= 10;
              && name == (if reached then Get(q, "full_name") else old(name))
              && status == (if reached then OrDefault(Get(q, "status"), "user") else old(status))
              && age == (if reached && InEnum(StatusOptions, status) && Atoi(Get(q, "age")).Some?
                         then Atoi(Get(q, "age")).value else old(age))
    {
      login := Get(q, "login");
      if login == "" {
        return Some("login must me not empty");
      }
      if Utf8Len(login) < 10 {
        return Some("login len must be >= 10");
      }
      name := Get(q, "full_name");
      status := Get(q, "status");
      if status == "" {
        status := "user";
      }
      if !Contains(Bars(StatusOptions), "|" + status + "|") {
        return Some(EnumError("status", StatusOptions));
      }
      var parsed := Atoi(Get(q, "age"));
      if parsed.None? {
        return Some("age must be int");
      }
      age := parsed.value;
      if age < 0 {
        return Some("age must be >= 0");
      }
      if age > 128 {
        return Some("age must be <= 128");
      }
      return None;
    }
  }

  /** The fields of an OtherCreateParams, as the business method receives them. */
  datatype OtherCreateFields = OtherCreateFields(username: string, name: string, heroClass: string, level: int)

  class OtherCreateParams {
    var username: string
    var name: string
    var heroClass: string
    var level: int

    constructor ()
      ensures username == "" && name == "" && heroClass == "" && level == 0
    {
      username, name, heroClass, level := "", "", "", 0;
    }

    function Fields(): OtherCreateFields
      reads this
    {
      OtherCreateFields(username, name, heroClass, level)
    }

    method Unmarshall(q: Values) returns (err: Option<string>)
      modifies this
      ensures err == OtherCreateError(q)
      ensures username == Get(q, "username")
      ensures var reached := username != "" && Utf8Len(username) >= 3;
              && name == (if reached then Get(q, "account_name") else old(name))
              && heroClass == (if reached then OrDefault(Get(q, "class"), "warrior") else old(heroClass))
              && level == (if reached && InEnum(ClassOptions, heroClass) && Atoi(Get(q, "level")).Some?
                           then Atoi(Get(q, "level")).value else old(level))
    {
      username := Get(q, "username");
      if username == "" {
        return Some("username must me not empty");
      }
      if Utf8Len(username) < 3 {
        return Some("username len must be >= 3");
      }
      name := Get(q, "account_name");
      heroClass := Get(q, "class");
      if heroClass == "" {
        heroClass := "warrior";
      }
      if !Contains(Bars(ClassOptions), "|" + heroClass + "|") {
        return Some(EnumError("class", ClassOptions));
      }
      var parsed := Atoi(Get(q, "level"));
      if parsed.None? {
        return Some("level must be int");
      }
      level := parsed.value;
      if level < 1 {
        return Some("level must be >= 1");
      }
      if level > 50 {
        return Some("level must be <= 50");
      }
      return None;
    }
  }

  // ---------------------------------------------------------------------
  // Handlers and routing.

  /** The parts of an HTTP request the handlers look at. `query` is the URL
      query, `postForm` the values of a url-encoded body (what ParseForm puts
      in r.PostForm), `auth` the X-Auth header ("" when absent). */
  datatype Request = Request(verb: string, path: string, query: Values, postForm: Values, auth: string)

  /** r.Form after r.ParseForm(): the body's values, then the query's. */
  function Form(r: Request): Values {
    ParseForm(r.postForm, r.query)
  }

  /** What a business method returned: a result, an ApiError with its HTTP
      status, or any other error. */
  datatype CallOutcome = Done | ApiFailure(httpStatus: int, message: string) | OtherFailure(message: string)

  /** A plain-text error, a JSON body {"error": ...}, or a JSON body carrying the result. */
  datatype Body = Text(text: string) | ErrorJson(error: string) | ResultJson

  datatype Reply = Reply(status: int, body: Body)

  /** How the handlers answer once the business method has returned. */
  function OutcomeReply(outcome: CallOutcome): Reply {
    match outcome
    case Done => Reply(200, ResultJson)
    case ApiFailure(st, msg) => Reply(st, ErrorJson(msg))
    case OtherFailure(msg) => Reply(500, ErrorJson(msg))
  }

  /** The fields CreateParams holds after a successful Unmarshall. */
  function CreateFieldsOf(q: Values): CreateFields
    requires CreateError(q) == None
  {
    CreateFields(Get(q, "login"), Get(q, "full_name"), OrDefault(Get(q, "status"), "user"),
                 Atoi(Get(q, "age")).value)
  }

  function OtherCreateFieldsOf(q: Values): OtherCreateFields
    requires OtherCreateError(q) == None
  {
    OtherCreateFields(Get(q, "username"), Get(q, "account_name"), OrDefault(Get(q, "class"), "warrior"),
                      Atoi(Get(q, "level")).value)
  }

  /** MyApi.ProfileHandler's answer: GET and POST only; GET reads the URL query, POST r.Form. */
  function ProfileReply(r: Request, profile: string -> CallOutcome): Reply {
    if r.verb != "POST" && r.verb != "GET" then Reply(406, Text("Bad method"))
    else
      var q := if r.verb == "GET" then r.query else Form(r);
      match ProfileError(q)
      case Some(e) => Reply(400, ErrorJson(e))
      case None => OutcomeReply(profile(Get(q, "login")))
  }

  /** MyApi.CreateHandler's answer. */
  function CreateReply(r: Request, create: CreateFields -> CallOutcome): Reply {
    if r.verb != "POST" then Reply(406, ErrorJson("bad method"))
    else if r.auth != "100500" then Reply(403, ErrorJson("unauthorized"))
    else match CreateError(Form(r))
      case Some(e) => Reply(400, ErrorJson(e))
      case None => OutcomeReply(create(CreateFieldsOf(Form(r))))
  }

  /** OtherApi.CreateHandler's answer. */
  function OtherCreateReply(r: Request, create: OtherCreateFields -> CallOutcome): Reply {
    if r.verb != "POST" then Reply(406, ErrorJson("bad method"))
    else if r.auth != "100500" then Reply(403, ErrorJson("unauthorized"))
    else match OtherCreateError(Form(r))
      case Some(e) => Reply(400, ErrorJson(e))
      case None => OutcomeReply(create(OtherCreateFieldsOf(Form(r))))
  }

  /** The create handlers check the method, then the token, then the parameters. */
  lemma CreateReplyOrder(r: Request, create: CreateFields -> CallOutcome)
    ensures r.verb != "POST" ==> CreateReply(r, create) == Reply(406, ErrorJson("bad method"))
    ensures r.verb == "POST" && r.auth != "100500" ==>
              CreateReply(r, create) == Reply(403, ErrorJson("unauthorized"))
    ensures r.verb == "POST" && r.auth == "100500" && CreateError(Form(r)).Some? ==>
              CreateReply(r, create) == Reply(400, ErrorJson(CreateError(Form(r)).value))
    ensures r.verb == "POST" && r.auth == "100500" && CreateError(Form(r)).None? ==>
              CreateReply(r, create) == OutcomeReply(create(CreateFieldsOf(Form(r))))
  {
  }

  /** The profile handler answers 406 to any verb but GET and POST. GET reads
      the login from the URL query only; POST reads r.Form, so the body's
      login when the body gives one and the query's otherwise. An empty login
      is a 400, and any other login goes to the business method. */
  lemma ProfileReplyOrder(r: Request, other: Values, profile: string -> CallOutcome)
    ensures r.verb != "GET" && r.verb != "POST" ==> ProfileReply(r, profile) == Reply(406, Text("Bad method"))
    ensures r.verb == "GET" ==> ProfileReply(r, profile) == ProfileReply(r.(postForm := other), profile)
    ensures r.verb == "GET" || r.verb == "POST" ==>
              var login := if r.verb == "GET" then Get(r.query, "login")
                           else if |ValuesOf(r.postForm, "login")| > 0 then r.postForm["login"][0]
                           else Get(r.query, "login");
              ProfileReply(r, profile) ==
                if login == "" then Reply(400, ErrorJson("login must me not empty"))
                else OutcomeReply(profile(login))
  {
    ParseFormGet(r.postForm, r.query, "login");
  }

  /** OtherApi's create handler checks the method, then the token, then the
      parameters, and only then calls the business method. */
  lemma OtherCreateReplyOrder(r: Request, create: OtherCreateFields -> CallOutcome)
    ensures r.verb != "POST" ==> OtherCreateReply(r, create) == Reply(406, ErrorJson("bad method"))
    ensures r.verb == "POST" && r.auth != "100500" ==>
              OtherCreateReply(r, create) == Reply(403, ErrorJson("unauthorized"))
    ensures r.verb == "POST" && r.auth == "100500" && OtherCreateError(Form(r)).Some? ==>
              OtherCreateReply(r, create) == Reply(400, ErrorJson(OtherCreateError(Form(r)).value))
    ensures r.verb == "POST" && r.auth == "100500" && OtherCreateError(Form(r)).None? ==>
              OtherCreateReply(r, create) == OutcomeReply(create(OtherCreateFieldsOf(Form(r))))
  {
  }

  method ProfileHandler(r: Request, profile: string -> CallOutcome) returns (reply: Reply)
    ensures reply == ProfileReply(r, profile)
  {
    var param := new ProfileParams();
    if r.verb != "POST" && r.verb != "GET" {
      return Reply(406, Text("Bad method"));
    }
    var urlVal := r.query;
    if r.verb != "GET" {
      urlVal := ParseForm(r.postForm, r.query);
    }
    var err := param.Unmarshall(urlVal);
    if err.Some? {
      return Reply(400, ErrorJson(err.value));
    }
    reply := OutcomeReply(profile(param.login));
  }

  method CreateHandler(r: Request, create: CreateFields -> CallOutcome) returns (reply: Reply)
    ensures reply == CreateReply(r, create)
  {
    var param := new CreateParams();
    if r.verb != "POST" {
      return Reply(406, ErrorJson("bad method"));
    }
    if r.auth != "100500" {
      return Reply(403, ErrorJson("unauthorized"));
    }
    var form := ParseForm(r.postForm, r.query);
    var err := param.Unmarshall(form);
    if err.Some? {
      return Reply(400, ErrorJson(err.value));
    }
    reply := OutcomeReply(create(param.Fields()));
  }

  method OtherCreateHandler(r: Request, create: OtherCreateFields -> CallOutcome) returns (reply: Reply)
    ensures reply == OtherCreateReply(r, create)
  {
    var param := new OtherCreateParams();
    if r.verb != "POST" {
      return Reply(406, ErrorJson("bad method"));
    }
    if r.auth != "100500" {
      return Reply(403, ErrorJson("unauthorized"));
    }
    var form := ParseForm(r.postForm, r.query);
    var err := param.Unmarshall(form);
    if err.Some? {
      return Reply(400, ErrorJson(err.value));
    }
    reply := OutcomeReply(create(param.Fields()));
  }

  /** MyApi.ServeHTTP: two routes; every other path is an unknown method. */
  method MyApiServeHttp(r: Request, profile: string -> CallOutcome, create: CreateFields -> CallOutcome)
    returns (reply: Reply)
    ensures r.path == "/user/profile" ==> reply == ProfileReply(r, profile)
    ensures r.path == "/user/create" ==> reply == CreateReply(r, create)
    ensures r.path != "/user/profile" && r.path != "/user/create" ==>
              reply == Reply(404, ErrorJson("unknown method"))
  {
    if r.path == "/user/profile" {
      reply := ProfileHandler(r, profile);
    } else if r.path == "/user/create" {
      reply := CreateHandler(r, create);
    } else {
      reply := Reply(404, ErrorJson("unknown method"));
    }
  }

  /** OtherApi.ServeHTTP: one route. */
  method OtherApiServeHttp(r: Request, create: OtherCreateFields -> CallOutcome) returns (reply: Reply)
    ensures r.path == "/user/create" ==> reply == OtherCreateReply(r, create)
    ensures r.path != "/user/create" ==> reply == Reply(404, ErrorJson("unknown method"))
  {
    if r.path == "/user/create" {
      reply := OtherCreateHandler(r, create);
    } else {
      reply := Reply(404, ErrorJson("unknown method"));
    }
  }
}
