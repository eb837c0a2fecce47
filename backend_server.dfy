/**
 * The backend's request handlers over the rows of the `User` and `Demo` tables, held as two
 * maps keyed by id. Requests are handled one at a time. What the database generates (fresh
 * ids, the creation time) and what `jsonwebtoken` computes (`sign`, `verify`) are supplied
 * from outside.
 */
module BackendServer {
  import opened Wrappers
  import opened BackendModel
  import opened BackendAuth
  import DemoSchema

  predicate EmailTaken(users: map<UserId, User>, email: string) {
    exists id :: id in users && users[id].email == email
  }

  /** The reason signup refuses, in the order the handler checks: passwords first, then the email. */
  function SignupRefusal(users: map<UserId, User>, email: string, password: string, confirmPassword: string): Option<Response> {
    if password != confirmPassword then Some(PasswordsDoNotMatch)
    else if EmailTaken(users, email) then Some(EmailAlreadyTaken)
    else None
  }

  /** The row `prisma.demo.create` inserts for a validated body. */
  function NewDemo(id: DemoId, input: DemoSchema.DemoInput, owner: UserId, now: nat): (d: Demo)
    ensures d.id == id && d.views == 0 && d.userId == owner && d.createdAt == now
    ensures d.title == input.title && d.description == input.description && d.kind == input.kind
    ensures d.content == input.content && d.thumbnail == input.thumbnail && d.url == input.url
    ensures d.isPublic == (input.isPublic == Some(true))
  {
    Demo(id, input.title, input.description, input.kind, input.content, input.thumbnail, input.url,
         0, now, owner, input.isPublic.GetOr(false))
  }

  /**
   * The row after `prisma.demo.update` with the body's fields: an optional key the body leaves
   * out is `undefined` there, which keeps the stored value.
   */
  function Revised(d: Demo, input: DemoSchema.DemoInput): (r: Demo)
    ensures r.id == d.id && r.views == d.views && r.userId == d.userId && r.createdAt == d.createdAt
    ensures r.title == input.title && r.description == input.description
    ensures r.kind == input.kind && r.content == input.content
    ensures r.thumbnail == if input.thumbnail.Some? then input.thumbnail else d.thumbnail
    ensures r.url == if input.url.Some? then input.url else d.url
    ensures r.isPublic == input.isPublic.GetOr(d.isPublic)
  {
    d.(title := input.title, description := input.description, kind := input.kind,
       content := input.content,
       thumbnail := if input.thumbnail.Some? then input.thumbnail else d.thumbnail,
       url := if input.url.Some? then input.url else d.url,
       isPublic := input.isPublic.GetOr(d.isPublic))
  }

  function Viewed(d: Demo): Demo {
    d.(views := d.views + 1)
  }

  /** `orderBy: { createdAt: 'desc' }`. */
  predicate NewestFirst(list: seq<Demo>) {
    forall i, j :: 0 <= i < j < |list| ==> list[i].createdAt >= list[j].createdAt
  }

  predicate Distinct(list: seq<Demo>) {
    forall i, j :: 0 <= i < j < |list| ==> list[i] != list[j]
  }

  /** Places `d` into a newest-first list. */
  function InsertNewestFirst(list: seq<Demo>, d: Demo): (r: seq<Demo>)
    ensures multiset(r) == multiset(list) + multiset{d}
    ensures NewestFirst(list) ==> NewestFirst(r)
  {
    if list == [] || d.createdAt >= list[0].createdAt then
      assert NewestFirst(list) ==> NewestFirst([d] + list) by {
        if NewestFirst(list) {
          PrependNewest(d, list);
        }
      }
      [d] + list
    else
      var tail := InsertNewestFirst(list[1..], d);
      InsertedBehindHead(list, d, tail);
      [list[0]] + tail
  }

  /** Keeping the head of the list in front of the tail's insertion keeps both properties. */
  lemma InsertedBehindHead(list: seq<Demo>, d: Demo, tail: seq<Demo>)
    requires list != [] && d.createdAt < list[0].createdAt
    requires multiset(tail) == multiset(list[1..]) + multiset{d}
    requires NewestFirst(list[1..]) ==> NewestFirst(tail)
    ensures multiset([list[0]] + tail) == multiset(list) + multiset{d}
    ensures NewestFirst(list) ==> NewestFirst([list[0]] + tail)
  {
    assert list == [list[0]] + list[1..];
    if NewestFirst(list) {
      assert NewestFirst(list[1..]) by {
        forall i, j | 0 <= i < j < |list[1..]| ensures list[1..][i].createdAt >= list[1..][j].createdAt {
          assert list[1..][i] == list[i + 1] && list[1..][j] == list[j + 1];
        }
      }
      forall x | x in tail ensures x.createdAt <= list[0].createdAt {
        assert x in multiset(tail);
        if x != d {
          assert x in multiset(list[1..]);
          var k :| 0 <= k < |list[1..]| && list[1..][k] == x;
          assert list[k + 1] == x;
        }
      }
      PrependNewest(list[0], tail);
    }
  }

  lemma PrependNewest(h: Demo, tail: seq<Demo>)
    requires NewestFirst(tail) && forall x :: x in tail ==> x.createdAt <= h.createdAt
    ensures NewestFirst([h] + tail)
  {
    var r := [h] + tail;
    forall i, j | 0 <= i < j < |r| ensures r[i].createdAt >= r[j].createdAt {
      assert r[j] == tail[j - 1];
      assert r[j] in tail;
      if i > 0 {
        assert r[i] == tail[i - 1];
      }
    }
  }

  /** One more view on top of `k` views counted since the row read `d0`. */
  lemma ViewStep(start: map<DemoId, Demo>, before: map<DemoId, Demo>, id: DemoId, d0: Demo, k: nat)
    requires before == start[id := d0.(views := d0.views + k)]
    ensures id in before && before[id].views == d0.views + k
    ensures before[id := Viewed(before[id])] == start[id := d0.(views := d0.views + (k + 1))]
  {
  }

  lemma RepeatedElement(list: seq<Demo>, i: nat, j: nat)
    requires i < j < |list| && list[i] == list[j]
    ensures multiset(list)[list[i]] >= 2
  {
    assert list == list[..j] + list[j..];
    assert list[i] in list[..j];
    assert list[j] in list[j..];
  }

  /** The requests the HTTP surface accepts and the store serves. */
  datatype Request =
    | SignupRequest(name: Option<string>, email: string, password: string, confirmPassword: string)
    | LoginRequest(email: string, password: string)
    | MeRequest
    | CreateDemoRequest(body: DemoSchema.Body)
    | ListDemosRequest
    | GetDemoRequest(id: DemoId)
    | UpdateDemoRequest(id: DemoId, body: DemoSchema.Body)
    | DeleteDemoRequest(id: DemoId)

  /** Routes mounted behind `authenticateToken`. */
  predicate Protected(req: Request) {
    !req.SignupRequest? && !req.LoginRequest?
  }

  class Server {
    var users: map<UserId, User>
    var demos: map<DemoId, Demo>
    const sign: UserId -> string
    const verify: string -> Option<UserId>

    /** Rows sit under their own id, emails are unique, and every demo's owner exists. */
    ghost predicate Valid()
      reads this
    {
      && (forall id :: id in users ==> users[id].id == id)
      && (forall a, b :: a in users && b in users && users[a].email == users[b].email ==> a == b)
      && (forall id :: id in demos ==> demos[id].id == id && demos[id].userId in users)
    }

    /** The `findFirst({ where: { id, user: { id: userId } } })` lookup succeeds. */
    predicate Owns(userId: UserId, id: DemoId)
      reads this
    {
      id in demos && demos[id].userId == userId
    }

    predicate Credentials(id: UserId, email: string, password: string)
      reads this
    {
      id in users && users[id].email == email && users[id].password == password
    }

    /** How often the listing under construction holds `x` once the ids in `pending` remain. */
    function Listed(x: Demo, pending: set<DemoId>, userId: UserId): nat
      reads this
    {
      if x.id in demos && x.id !in pending && demos[x.id] == x && x.userId == userId then 1 else 0
    }

    constructor (sign: UserId -> string, verify: string -> Option<UserId>)
      ensures Valid() && users == map[] && demos == map[]
      ensures this.sign == sign && this.verify == verify
    {
      users, demos := map[], map[];
      this.sign, this.verify := sign, verify;
    }

    // ----- what each handler does, as a relation between the old and the new store -----

    twostate predicate SignedUp(name: Option<string>, email: string, password: string, confirmPassword: string,
                                newId: UserId, now: nat, resp: Response)
      reads this
    {
      && demos == old(demos)
      && match SignupRefusal(old(users), email, password, confirmPassword)
         case Some(refusal) => resp == refusal && users == old(users)
         case None =>
           if newId in old(users) then resp == InternalServerError && users == old(users)
           else
             && users == old(users)[newId := User(newId, email, password, name, now)]
             && resp == Response(200, Issued(Some("User created successfully"), sign(newId)))
    }

    ghost predicate LoginAnswer(email: string, password: string, resp: Response)
      reads this
    {
      && (forall id :: Credentials(id, email, password) ==> resp == Response(200, Issued(None, sign(id))))
      && ((forall id :: !Credentials(id, email, password)) ==> resp == InvalidCredentials)
    }

    predicate MeAnswer(userId: UserId, resp: Response)
      reads this
    {
      resp == if userId in users then Response(200, Profile(PublicView(users[userId]))) else UserNotFound
    }

    /** The caller's demos, each once, newest first. */
    ghost predicate ListAnswer(userId: UserId, resp: Response)
      reads this
    {
      && resp.status == 200 && resp.payload.Many?
      && NewestFirst(resp.payload.demos)
      && Distinct(resp.payload.demos)
      && (forall d :: d in resp.payload.demos <==> d in demos.Values && d.userId == userId)
    }

    twostate predicate Created(userId: UserId, body: DemoSchema.Body, newId: DemoId, now: nat, resp: Response)
      reads this
    {
      && users == old(users)
      && match DemoSchema.Parse(body)
         case None => resp == InvalidDemoData && demos == old(demos)
         case Some(input) =>
           if userId !in old(users) || newId in old(demos) then resp == InternalServerError && demos == old(demos)
           else
             && demos == old(demos)[newId := NewDemo(newId, input, userId, now)]
             && resp == Response(201, One(NewDemo(newId, input, userId, now)))
    }

    twostate predicate Fetched(userId: UserId, id: DemoId, resp: Response)
      reads this
    {
      && users == old(users)
      && if old(Owns(userId, id)) then
           && resp == Response(200, One(old(demos)[id]))
           && demos == old(demos)[id := Viewed(old(demos)[id])]
         else resp == DemoNotFound && demos == old(demos)
    }

    twostate predicate Updated(userId: UserId, id: DemoId, body: DemoSchema.Body, resp: Response)
      reads this
    {
      && users == old(users)
      && match DemoSchema.Parse(body)
         case None => resp == InvalidDemoData && demos == old(demos)
         case Some(input) =>
           if old(Owns(userId, id)) then
             && demos == old(demos)[id := Revised(old(demos)[id], input)]
             && resp == Response(200, One(Revised(old(demos)[id], input)))
           else resp == DemoNotFound && demos == old(demos)
    }

    twostate predicate Deleted(userId: UserId, id: DemoId, resp: Response)
      reads this
    {
      && users == old(users)
      && if old(Owns(userId, id)) then resp == DemoDeleted && demos == old(demos) - {id}
         else resp == DemoNotFound && demos == old(demos)
    }

    // ----- the handlers -----

    /** POST /api/auth/signup. */
    method Signup(name: Option<string>, email: string, password: string, confirmPassword: string,
                  newId: UserId, now: nat) returns (resp: Response)
      requires Valid()
      modifies this
      ensures Valid()
      ensures SignedUp(name, email, password, confirmPassword, newId, now, resp)
    {
      var refusal := SignupRefusal(users, email, password, confirmPassword);
      if refusal.Some? {
        return refusal.value;
      }
      if newId in users {
        return InternalServerError;
      }
      users := users[newId := User(newId, email, password, name, now)];
      resp := Response(200, Issued(Some("User created successfully"), sign(newId)));
    }

    /** POST /api/auth/login: the stored password must equal the given one exactly. */
    method Login(email: string, password: string) returns (resp: Response)
      requires Valid()
      ensures LoginAnswer(email, password, resp)
      ensures resp.status == 200 <==> exists id :: Credentials(id, email, password)
    {
      if id :| id in users && users[id].email == email {
        if users[id].password == password {
          assert Credentials(id, email, password);
          return Response(200, Issued(None, sign(id)));
        }
      }
      resp := InvalidCredentials;
    }

    /** GET /api/auth/me. */
    method Me(userId: UserId) returns (resp: Response)
      ensures MeAnswer(userId, resp)
      ensures resp.status == 200 <==> userId in users
    {
      if userId in users {
        var u := users[userId];
        resp := Response(200, Profile(PublicView(u)));
      } else {
        resp := UserNotFound;
      }
    }

    /** POST /api/demos. */
    method CreateDemo(userId: UserId, body: DemoSchema.Body, newId: DemoId, now: nat) returns (resp: Response)
      requires Valid()
      modifies this
      ensures Valid()
      ensures Created(userId, body, newId, now, resp)
    {
      var parsed := DemoSchema.Parse(body);
      if parsed.None? {
        return InvalidDemoData;
      }
      if userId !in users || newId in demos {
        return InternalServerError;
      }
      var demo := NewDemo(newId, parsed.value, userId, now);
      demos := demos[newId := demo];
      resp := Response(201, One(demo));
    }

    /** GET /api/demos: the `findMany` query, ordered by creation time, newest first. */
    method ListDemos(userId: UserId) returns (resp: Response)
      requires Valid()
      ensures ListAnswer(userId, resp)
    {
      var pending := demos.Keys;
      var list: seq<Demo> := [];
      while pending != {}
        invariant pending <= demos.Keys
        invariant NewestFirst(list)
        invariant forall x :: multiset(list)[x] == Listed(x, pending, userId)
        decreases pending
      {
        var id :| id in pending;
        var d := demos[id];
        if d.userId == userId {
          list := InsertNewestFirst(list, d);
        }
        pending := pending - {id};
      }
      ListingComplete(list, userId);
      resp := Response(200, Many(list));
    }

    /** A listing holding each of the caller's demos once, and nothing else, is a listing answer. */
    lemma ListingComplete(list: seq<Demo>, userId: UserId)
      requires Valid() && NewestFirst(list)
      requires forall x :: multiset(list)[x] == Listed(x, {}, userId)
      ensures ListAnswer(userId, Response(200, Many(list)))
    {
      forall i, j | 0 <= i < j < |list| ensures list[i] != list[j] {
        if list[i] == list[j] {
          RepeatedElement(list, i, j);
        }
      }
      forall x ensures x in list <==> x in demos.Values && x.userId == userId {
        assert x in list <==> multiset(list)[x] > 0;
        if x in demos.Values {
          var k :| k in demos && demos[k] == x;
          assert k == x.id;
        }
      }
    }

    /** GET /api/demos/:id: answers with the row as read, then counts one view. */
    method GetDemo(userId: UserId, id: DemoId) returns (resp: Response)
      requires Valid()
      modifies this
      ensures Valid()
      ensures Fetched(userId, id, resp)
    {
      if !Owns(userId, id) {
        return DemoNotFound;
      }
      var demo := demos[id];
      demos := demos[id := Viewed(demo)];
      resp := Response(200, One(demo));
    }

    /** PUT /api/demos/:id: the body is validated before the ownership lookup. */
    method UpdateDemo(userId: UserId, id: DemoId, body: DemoSchema.Body) returns (resp: Response)
      requires Valid()
      modifies this
      ensures Valid()
      ensures Updated(userId, id, body, resp)
    {
      var parsed := DemoSchema.Parse(body);
      if parsed.None? {
        return InvalidDemoData;
      }
      if !Owns(userId, id) {
        return DemoNotFound;
      }
      var revised := Revised(demos[id], parsed.value);
      demos := demos[id := revised];
      resp := Response(200, One(revised));
    }

    /** DELETE /api/demos/:id. */
    method DeleteDemo(userId: UserId, id: DemoId) returns (resp: Response)
      requires Valid()
      modifies this
      ensures Valid()
      ensures Deleted(userId, id, resp)
    {
      if !Owns(userId, id) {
        return DemoNotFound;
      }
      demos := demos - {id};
      resp := DemoDeleted;
    }

    /**
     * One request through the HTTP surface: protected routes pass `authenticateToken` first,
     * and a rejected request never reaches its handler.
     */
    method Serve(authorization: Option<string>, req: Request, freshId: string, now: nat) returns (resp: Response)
      requires Valid()
      modifies this
      ensures Valid()
      ensures Protected(req) && Authenticate(authorization, verify).Rejected? ==>
        resp == Authenticate(authorization, verify).response && users == old(users) && demos == old(demos)
      ensures Protected(req) && Authenticate(authorization, verify).Authenticated? ==>
        var userId := Authenticate(authorization, verify).userId;
        match req
        case MeRequest => MeAnswer(userId, resp) && users == old(users) && demos == old(demos)
        case CreateDemoRequest(body) => Created(userId, body, freshId, now, resp)
        case ListDemosRequest => ListAnswer(userId, resp) && users == old(users) && demos == old(demos)
        case GetDemoRequest(id) => Fetched(userId, id, resp)
        case UpdateDemoRequest(id, body) => Updated(userId, id, body, resp)
        case DeleteDemoRequest(id) => Deleted(userId, id, resp)
        case _ => false
      ensures req.SignupRequest? ==>
        SignedUp(req.name, req.email, req.password, req.confirmPassword, freshId, now, resp)
      ensures req.LoginRequest? ==>
        LoginAnswer(req.email, req.password, resp) && users == old(users) && demos == old(demos)
    {
      if req.SignupRequest? {
        resp := Signup(req.name, req.email, req.password, req.confirmPassword, freshId, now);
        return;
      }
      if req.LoginRequest? {
        resp := Login(req.email, req.password);
        return;
      }
      var auth := Authenticate(authorization, verify);
      if auth.Rejected? {
        return auth.response;
      }
      var userId := auth.userId;
      match req {
        case MeRequest => resp := Me(userId);
        case CreateDemoRequest(body) => resp := CreateDemo(userId, body, freshId, now);
        case ListDemosRequest => resp := ListDemos(userId);
        case GetDemoRequest(id) => resp := GetDemo(userId, id);
        case UpdateDemoRequest(id, body) => resp := UpdateDemo(userId, id, body);
        case DeleteDemoRequest(id) => resp := DeleteDemo(userId, id);
      }
    }

    /** `n` reads of an owned demo by its owner add exactly `n` views and touch nothing else. */
    method ViewRepeatedly(userId: UserId, id: DemoId, n: nat) returns (seen: seq<nat>)
      requires Valid() && Owns(userId, id)
      modifies this
      ensures Valid() && users == old(users)
      ensures demos == old(demos)[id := old(demos)[id].(views := old(demos)[id].views + n)]
      ensures |seen| == n && forall k :: 0 <= k < n ==> seen[k] == old(demos)[id].views + k
    {
      ghost var start, d0 := demos, demos[id];
      seen := [];
      var k := 0;
      while k < n
        invariant 0 <= k <= n
        invariant Valid() && users == old(users) && Owns(userId, id)
        invariant demos == start[id := d0.(views := d0.views + k)]
        invariant |seen| == k && forall j :: 0 <= j < k ==> seen[j] == d0.views + j
      {
        ghost var before := demos;
        var resp := GetDemo(userId, id);
        ViewStep(start, before, id, d0, k);
        seen := seen + [resp.payload.demo.views];
        k := k + 1;
      }
    }
  }

  /**
   * A new account signs up, creates a demo with the token it was issued, and reads the demo
   * twice: each read answers with the count before that read.
   */
  method SignupCreateAndRead(sign: UserId -> string, verify: string -> Option<UserId>)
    returns (signup: Response, created: Response, first: Response, second: Response)
    requires verify(sign("u1")) == Some("u1") && sign("u1") != "" && ' ' !in sign("u1")
    ensures signup == Response(200, Issued(Some("User created successfully"), sign("u1")))
    ensures created.status == 201 && created.payload.One? && created.payload.demo.views == 0
    ensures created.payload.demo.title == "Demo A" && created.payload.demo.userId == "u1" && !created.payload.demo.isPublic
    ensures first.status == 200 && first.payload.One? && first.payload.demo.views == 0
    ensures second.status == 200 && second.payload.One? && second.payload.demo.views == 1
  {
    var server := new Server(sign, verify);
    signup := server.Serve(None, SignupRequest(Some("Jo Lee"), "jo@x.com", "p", "p"), "u1", 0);
    var token := sign("u1");
    ClientHeader(token, verify);
    var header := Some("Bearer " + token);
    var input := DemoSchema.DemoInput("Demo A", "d", "interactive", "[]", None, None, None);
    DemoSchema.ParseEncode(input);
    created := server.Serve(header, CreateDemoRequest(DemoSchema.Encode(input)), "d1", 1);
    assert server.Owns("u1", "d1") && server.demos["d1"] == NewDemo("d1", input, "u1", 1);
    first, second := ReadTwice(server, header, "d1");
  }

  /** Two reads of an owned demo through the HTTP surface: each answers the count before it. */
  method ReadTwice(server: Server, header: Option<string>, id: DemoId) returns (first: Response, second: Response)
    requires server.Valid() && Authenticate(header, server.verify).Authenticated?
    requires server.Owns(Authenticate(header, server.verify).userId, id)
    modifies server
    ensures first == Response(200, One(old(server.demos[id])))
    ensures second == Response(200, One(Viewed(old(server.demos[id]))))
  {
    first := server.Serve(header, GetDemoRequest(id), "unused", 0);
    second := server.Serve(header, GetDemoRequest(id), "unused", 0);
  }
}
