/** Artifact downloads: URL policy, redirects followed by hand, and a body read in arbitrary pieces. */
module Download {
  import opened Text

  // ---- url policy ----------------------------------------------------------------------------

  const HTTPS := "https://"
  const HTTP := "http://"

  predicate EndsAuthority(c: char) {
    c == '/' || c == '?' || c == '#'
  }

  /** What stands before the first `/`, `?` or `#`. */
  function Authority(rest: string): (a: string)
    ensures a <= rest
  {
    if rest == [] || EndsAuthority(rest[0]) then [] else [rest[0]] + Authority(rest[1..])
  }

  /** `validate_url`: whether it answers Ok. */
  predicate ValidUrl(url: string, host: string) {
    HTTPS <= url &&
    var authority := Authority(url[|HTTPS|..]);
    '@' !in authority && Before(authority, ':') == host
  }

  predicate Plain(s: string) {
    forall i :: 0 <= i < |s| ==> !EndsAuthority(s[i]) && s[i] != '@'
  }

  /** A host name as a URL can carry it. */
  predicate HostText(host: string) {
    Plain(host) && ':' !in host
  }

  /** Nothing, or a colon and anything that stays inside the authority. */
  predicate PortText(port: string) {
    port == "" || (port[0] == ':' && Plain(port))
  }

  /** Nothing, or a path, query or fragment. */
  predicate TailText(tail: string) {
    tail == "" || EndsAuthority(tail[0])
  }

  /** The URLs the policy is meant to let through: https, exactly this host, no credentials. */
  predicate Pinned(url: string, host: string, port: string, tail: string) {
    HostText(host) && PortText(port) && TailText(tail) && url == HTTPS + (host + port + tail)
  }

  lemma {:induction false} AuthorityStops(a: string, tail: string)
    requires Plain(a) && TailText(tail)
    ensures Authority(a + tail) == a
  {
    if a != [] {
      assert (a + tail)[1..] == a[1..] + tail;
      AuthorityStops(a[1..], tail);
    } else {
      assert a + tail == tail;
    }
  }

  lemma {:induction false} AuthorityIsMaximal(rest: string)
    ensures var a := Authority(rest);
            (forall i :: 0 <= i < |a| ==> !EndsAuthority(a[i])) && TailText(rest[|a|..])
  {
    if rest != [] && !EndsAuthority(rest[0]) {
      AuthorityIsMaximal(rest[1..]);
      var a := Authority(rest[1..]);
      assert rest[1..][|a|..] == rest[1 + |a|..];
    }
  }

  /** An accepted URL has the pinned shape. */
  lemma {:induction false} ValidIsPinned(url: string, host: string) returns (port: string, tail: string)
    requires ValidUrl(url, host)
    ensures Pinned(url, host, port, tail)
  {
    var rest := url[|HTTPS|..];
    var a := Authority(rest);
    AuthorityIsMaximal(rest);
    port, tail := a[|host|..], rest[|a|..];
    assert a == host + port;
    PlainParts(host, port);
    assert url == HTTPS + (a + tail);
  }

  lemma {:induction false} PlainParts(a: string, b: string)
    requires Plain(a + b)
    ensures Plain(a) && Plain(b)
  {
    assert forall i :: 0 <= i < |a| ==> a[i] == (a + b)[i];
    assert forall i :: 0 <= i < |b| ==> b[i] == (a + b)[|a| + i];
  }

  lemma {:induction false} HostStops(host: string, port: string)
    requires HostText(host) && PortText(port)
    ensures Before(host + port, ':') == host
  {
    if port == "" {
      assert host + port == host;
    } else {
      BeforeStops(host, ':', port[1..]);
      assert host + port == host + [':'] + port[1..];
    }
  }

  lemma {:induction false} PlainJoin(a: string, b: string)
    requires Plain(a) && Plain(b)
    ensures Plain(a + b) && '@' !in a + b
  {}

  /** And every URL of that shape is accepted. */
  lemma {:induction false} PinnedIsValid(url: string, host: string, port: string, tail: string)
    requires Pinned(url, host, port, tail)
    ensures ValidUrl(url, host)
  {
    var rest := host + port + tail;
    assert url[|HTTPS|..] == rest;
    PlainJoin(host, port);
    AuthorityStops(host + port, tail);
    HostStops(host, port);
  }

  /** `join_redirect`. */
  function JoinRedirect(current: string, location: string): (r: Option<string>) {
    if HTTPS <= location || HTTP <= location then Some(location)
    else if location != [] && location[0] == '/' then
      var path := location[1..];
      if path != [] && path[0] == '/' then None
      else if !(HTTPS <= current) then None
      else Some(HTTPS + (Authority(current[|HTTPS|..]) + ("/" + path)))
    else None
  }

  /** One leading slash: a path on the same origin. */
  predicate SameOriginPath(location: string) {
    location != [] && location[0] == '/' && (|location| == 1 || location[1] != '/')
  }

  /** A redirect from an accepted URL leads to an accepted URL exactly when it is a path on the same
      origin or is itself an accepted URL. */
  lemma {:induction false} RedirectAccepted(current: string, location: string, host: string)
    requires ValidUrl(current, host)
    ensures (JoinRedirect(current, location).Some? && ValidUrl(JoinRedirect(current, location).value, host))
        <==> (SameOriginPath(location) || ValidUrl(location, host))
  {
    if SameOriginPath(location) {
      var a := Authority(current[|HTTPS|..]);
      var tail := "/" + location[1..];
      AuthorityIsMaximal(current[|HTTPS|..]);
      AuthorityStops(a, tail);
      assert (HTTPS + (a + tail))[|HTTPS|..] == a + tail;
    }
  }

  // ---- requests ------------------------------------------------------------------------------

  const MAX_REDIRECTS: nat := 3

  /** One read of the body: bytes (none of them ends the body), a read or write error, or the total budget
      found exceeded. */
  datatype Read = Data(bytes: seq<byte>) | Failed | Overdue

  datatype Response =
    | Redirect(location: Option<string>)
    | Body(contentLength: Option<nat>, parts: seq<Read>)
    | Status(code: nat)
    | Unreachable

  datatype Error = BadUrl | NoLocation | BadLocation | NotFound | Http(code: nat) | Network
                 | TooManyRedirects | TimedOut | Io | Short | WrongMagic | TooSmall

  datatype Result<+T> = Ok(value: T) | Err(error: Error)

  /** Any server, answering each request as it likes. */
  type Server = (nat, string) -> Response

  /** Where a response sends the next request. */
  function NextUrl(current: string, response: Response): Option<string> {
    if response.Redirect? && response.location.Some? then JoinRedirect(current, response.location.value) else None
  }

  /** How a fetch ends at a response that sends it nowhere. */
  function Landed(response: Response): Result<Response> {
    match response
    case Redirect(location) => Err(if location.None? then NoLocation else BadLocation)
    case Body(_, _) => Ok(response)
    case Status(code) => Err(if code == 404 then NotFound else Http(code))
    case Unreachable => Err(Network)
  }

  /** The requests a fetch makes from this hop on, in order. */
  function Requests(current: string, host: string, server: Server, hop: nat): (sent: seq<string>)
    decreases MAX_REDIRECTS + 1 - hop, current
  {
    if hop > MAX_REDIRECTS || !ValidUrl(current, host) then []
    else
      var next := NextUrl(current, server(hop, current));
      [current] + (if next.Some? then Requests(next.value, host, server, hop + 1) else [])
  }

  /** How it ends. */
  function Outcome(current: string, host: string, server: Server, hop: nat): (r: Result<Response>)
    decreases MAX_REDIRECTS + 1 - hop, current
  {
    if hop > MAX_REDIRECTS then Err(TooManyRedirects)
    else if !ValidUrl(current, host) then Err(BadUrl)
    else
      var next := NextUrl(current, server(hop, current));
      if next.Some? then Outcome(next.value, host, server, hop + 1) else Landed(server(hop, current))
  }

  /** What is known in the redirect loop: the requests sent so far and those still to come are all of them. */
  ghost predicate OnTheWay(
      sent: seq<string>, current: string, hop: nat, url: string, host: string, server: Server) {
    && Requests(url, host, server, 0) == sent + Requests(current, host, server, hop)
    && Outcome(url, host, server, 0) == Outcome(current, host, server, hop)
  }

  lemma {:induction false} Start(url: string, host: string, server: Server)
    ensures OnTheWay([], url, 0, url, host, server)
  {}

  lemma {:induction false} Hop(
      sent: seq<string>, current: string, hop: nat, url: string, host: string, server: Server, next: string)
    requires OnTheWay(sent, current, hop, url, host, server) && hop <= MAX_REDIRECTS && ValidUrl(current, host)
    requires NextUrl(current, server(hop, current)) == Some(next)
    ensures OnTheWay(sent + [current], next, hop + 1, url, host, server)
  {
    var rest := Requests(next, host, server, hop + 1);
    assert sent + ([current] + rest) == sent + [current] + rest;
  }

  lemma {:induction false} Stop(
      sent: seq<string>, current: string, hop: nat, url: string, host: string, server: Server)
    requires OnTheWay(sent, current, hop, url, host, server) && NextUrl(current, server(hop, current)).None?
    requires hop <= MAX_REDIRECTS && ValidUrl(current, host)
    ensures Requests(url, host, server, 0) == sent + [current]
    ensures Outcome(url, host, server, 0) == Landed(server(hop, current))
  {}

  lemma {:induction false} Refuse(
      sent: seq<string>, current: string, hop: nat, url: string, host: string, server: Server)
    requires OnTheWay(sent, current, hop, url, host, server) && (hop > MAX_REDIRECTS || !ValidUrl(current, host))
    ensures Requests(url, host, server, 0) == sent
    ensures Outcome(url, host, server, 0) == Err(if hop > MAX_REDIRECTS then TooManyRedirects else BadUrl)
  {}

  /** The redirect loop of `fetch`. */
  method Follow(url: string, host: string, server: Server) returns (r: Result<Response>, sent: seq<string>)
    ensures sent == Requests(url, host, server, 0)
    ensures r == Outcome(url, host, server, 0)
  {
    var current := url;
    sent := [];
    Start(url, host, server);
    for hop := 0 to MAX_REDIRECTS + 1
      invariant OnTheWay(sent, current, hop, url, host, server)
    {
      if !ValidUrl(current, host) {
        Refuse(sent, current, hop, url, host, server);
        return Err(BadUrl), sent;
      }
      var response := server(hop, current);
      var next: Option<string> := None;
      match response {
        case Redirect(Some(location)) =>
          next := JoinRedirect(current, location);
          r := Err(BadLocation);
        case Redirect(None) => r := Err(NoLocation);
        case Status(404) => r := Err(NotFound);
        case Status(code) => r := Err(Http(code));
        case Unreachable => r := Err(Network);
        case Body(_, _) => r := Ok(response);
      }
      if next.None? {
        Stop(sent, current, hop, url, host, server);
        return r, sent + [current];
      }
      Hop(sent, current, hop, url, host, server, next.value);
      sent := sent + [current];
      current := next.value;
    }
    Refuse(sent, current, MAX_REDIRECTS + 1, url, host, server);
    r := Err(TooManyRedirects);
  }

  /** Whatever the server answers: at most four requests, every one https to the pinned host, the first to
      the given URL and each later one where the redirect before it pointed. */
  ghost predicate WellSent(sent: seq<string>, current: string, host: string, server: Server, hop: nat) {
    && hop + |sent| <= MAX_REDIRECTS + 1
    && (sent != [] ==> sent[0] == current)
    && (forall i :: 0 <= i < |sent| ==> ValidUrl(sent[i], host))
    && (forall i :: 0 < i < |sent| ==> NextUrl(sent[i - 1], server(hop + i - 1, sent[i - 1])) == Some(sent[i]))
  }

  lemma {:induction false} RequestsWellSent(current: string, host: string, server: Server, hop: nat)
    requires hop <= MAX_REDIRECTS + 1
    ensures WellSent(Requests(current, host, server, hop), current, host, server, hop)
    decreases MAX_REDIRECTS + 1 - hop
  {
    if hop <= MAX_REDIRECTS && ValidUrl(current, host) {
      var next := NextUrl(current, server(hop, current));
      if next.Some? {
        RequestsWellSent(next.value, host, server, hop + 1);
        PrependSent(Requests(next.value, host, server, hop + 1), current, next.value, host, server, hop);
      }
    }
  }

  lemma {:induction false} PrependSent(
      rest: seq<string>, current: string, next: string, host: string, server: Server, hop: nat)
    requires WellSent(rest, next, host, server, hop + 1) && ValidUrl(current, host) && hop <= MAX_REDIRECTS
    requires NextUrl(current, server(hop, current)) == Some(next)
    ensures WellSent([current] + rest, current, host, server, hop)
  {
    var sent := [current] + rest;
    forall i | 0 < i < |sent|
      ensures NextUrl(sent[i - 1], server(hop + i - 1, sent[i - 1])) == Some(sent[i])
    {
      if i > 1 {
        assert sent[i - 1] == rest[i - 2] && sent[i] == rest[i - 1];
        assert NextUrl(rest[i - 2], server(hop + 1 + (i - 1) - 1, rest[i - 2])) == Some(rest[i - 1]);
      }
    }
  }

  /** A fetch that gets a body gets it from the last request it sent. */
  lemma {:induction false} BodyOfLastRequest(current: string, host: string, server: Server, hop: nat)
    requires Outcome(current, host, server, hop).Ok?
    ensures var sent := Requests(current, host, server, hop);
            sent != [] && Outcome(current, host, server, hop) == Ok(server(hop + |sent| - 1, sent[|sent| - 1]))
    ensures Outcome(current, host, server, hop).value.Body?
    decreases MAX_REDIRECTS + 1 - hop
  {
    var next := NextUrl(current, server(hop, current));
    if next.Some? {
      BodyOfLastRequest(next.value, host, server, hop + 1);
    }
  }

  // ---- the body ------------------------------------------------------------------------------

  const HEAD: nat := 64

  /** How `head` grows on one read. */
  function HeadAfter(head: seq<byte>, bytes: seq<byte>): seq<byte> {
    if |head| < HEAD then head + bytes[..if |bytes| < HEAD then |bytes| else HEAD] else head
  }

  /** `head` is a prefix of what came so far, and all of it until 64 bytes came. */
  predicate HeadOf(head: seq<byte>, body: seq<byte>) {
    head <= body && (|head| < HEAD ==> head == body)
  }

  lemma {:induction false} HeadGrows(head: seq<byte>, body: seq<byte>, bytes: seq<byte>)
    requires HeadOf(head, body)
    ensures HeadOf(HeadAfter(head, bytes), body + bytes)
  {}

  /** What the reads deliver: everything up to the first empty one, unless something fails first. */
  function Received(parts: seq<Read>): Result<seq<byte>> {
    if parts == [] then Ok([])
    else
      match parts[0]
      case Overdue => Err(TimedOut)
      case Failed => Err(Io)
      case Data(bytes) =>
        if bytes == [] then Ok([])
        else
          var rest := Received(parts[1..]);
          if rest.Ok? then Ok(bytes + rest.value) else rest
  }

  /** `verify_complete`: whether it answers Ok. */
  predicate Complete(written: nat, total: Option<nat>) {
    total.None? || written == total.value
  }

  /** What becomes of a whole body, in the order the checks are made; the magic is looked for in `head`. */
  function Judge(head: seq<byte>, body: seq<byte>, total: Option<nat>, magic: Option<seq<byte>>, min: nat)
      : Result<seq<byte>> {
    if !Complete(|body|, total) then Err(Short)
    else if magic.Some? && !(magic.value <= head) then Err(WrongMagic)
    else if |body| < min then Err(TooSmall)
    else Ok(body)
  }

  /** `head` at the end of the reads. */
  function Head(head: seq<byte>, parts: seq<Read>): seq<byte>
    decreases |parts|
  {
    if parts == [] || !parts[0].Data? || parts[0].bytes == [] then head
    else Head(HeadAfter(head, parts[0].bytes), parts[1..])
  }

  /** The read loop and the checks after it: `hashed` is the digest's input, `file` the file's contents. */
  method Receive(total: Option<nat>, parts: seq<Read>, magic: Option<seq<byte>>, min: nat)
      returns (r: Result<seq<byte>>, file: seq<byte>)
    ensures match Received(parts)
            case Err(e) => r == Err(e)
            case Ok(body) => r == Judge(Head([], parts), body, total, magic, min) && file == body
  {
    var head, hashed, written := [], [], 0;
    file := [];
    ghost var rest := parts;
    var i := 0;
    PrependNothing(Received(parts));
    while i < |parts|
      invariant i <= |parts| && rest == parts[i..]
      invariant file == hashed && |file| == written
      invariant Head([], parts) == Head(head, rest)
      invariant Received(parts) == Prepend(file, Received(rest))
    {
      match parts[i]
      case Overdue => return Err(TimedOut), file;
      case Failed => return Err(Io), file;
      case Data(bytes) =>
        if bytes == [] {
          break;
        }
        PrependTwice(file, bytes, Received(rest[1..]));
        head := HeadAfter(head, bytes);
        hashed, file := hashed + bytes, file + bytes;
        written := written + |bytes|;
        rest := rest[1..];
        i := i + 1;
    }
    assert file + [] == file;
    if !Complete(written, total) {
      return Err(Short), file;
    }
    if magic.Some? && !(magic.value <= head) {
      return Err(WrongMagic), file;
    }
    r := if written < min then Err(TooSmall) else Ok(hashed);
  }

  function Prepend(front: seq<byte>, r: Result<seq<byte>>): Result<seq<byte>> {
    if r.Ok? then Ok(front + r.value) else r
  }

  lemma {:induction false} PrependNothing(r: Result<seq<byte>>)
    ensures Prepend([], r) == r
  {
    if r.Ok? {
      assert [] + r.value == r.value;
    }
  }

  lemma {:induction false} PrependTwice(a: seq<byte>, b: seq<byte>, r: Result<seq<byte>>)
    ensures Prepend(a, Prepend(b, r)) == Prepend(a + b, r)
  {
    if r.Ok? {
      assert a + (b + r.value) == a + b + r.value;
    }
  }

  lemma {:induction false} HeadIsPrefix(head: seq<byte>, sofar: seq<byte>, parts: seq<Read>)
    requires HeadOf(head, sofar) && Received(parts).Ok?
    ensures HeadOf(Head(head, parts), sofar + Received(parts).value)
    decreases |parts|
  {
    if parts == [] || parts[0].bytes == [] {
      assert sofar + [] == sofar;
    } else {
      var bytes := parts[0].bytes;
      HeadGrows(head, sofar, bytes);
      HeadIsPrefix(HeadAfter(head, bytes), sofar + bytes, parts[1..]);
      assert sofar + (bytes + Received(parts[1..]).value) == sofar + bytes + Received(parts[1..]).value;
    }
  }

  /** The magic check sees the body's first bytes as long as it needs at most 64. */
  lemma {:induction false} HeadShowsMagic(head: seq<byte>, body: seq<byte>, magic: seq<byte>)
    requires HeadOf(head, body) && |magic| <= HEAD
    ensures magic <= head <==> magic <= body
  {
    assert forall i :: 0 <= i < |head| ==> head[i] == body[i];
  }

  /** However the body is cut into reads, the verdict is that of the body itself, as long as the magic is
      no longer than 64 bytes. */
  lemma {:induction false} VerdictOfBody(parts: seq<Read>, total: Option<nat>, magic: Option<seq<byte>>, min: nat)
    requires Received(parts).Ok? && (magic.Some? ==> |magic.value| <= HEAD)
    ensures var body := Received(parts).value;
            Judge(Head([], parts), body, total, magic, min) == Judge(body, body, total, magic, min)
  {
    var body := Received(parts).value;
    HeadIsPrefix([], [], parts);
    assert [] + body == body;
    if magic.Some? {
      HeadShowsMagic(Head([], parts), body, magic.value);
    }
  }

  /** The bound is exact: a body that is itself the magic, read at once, shows it if and only if it is no
      longer than 64 bytes. */
  lemma {:induction false} LongMagicIsRefused(magic: seq<byte>)
    requires magic != []
    ensures Received([Data(magic)]) == Ok(magic)
    ensures magic <= Head([], [Data(magic)]) <==> |magic| <= HEAD
  {
    var parts := [Data(magic)];
    assert parts[1..] == [] && magic + [] == magic;
    assert Head([], parts) == Head(HeadAfter([], magic), []) == HeadAfter([], magic);
  }

  /** `fetch`: a success is a whole body of the last request's response, as long as the response says it is,
      starting with the magic and no smaller than the minimum; the file holds the same bytes. */
  method Fetch(url: string, host: string, magic: Option<seq<byte>>, min: nat, server: Server)
      returns (r: Result<seq<byte>>, sent: seq<string>, file: seq<byte>)
    ensures sent == Requests(url, host, server, 0) && WellSent(sent, url, host, server, 0)
    ensures Outcome(url, host, server, 0).Err? ==> r == Err(Outcome(url, host, server, 0).error)
    ensures Outcome(url, host, server, 0).Ok? ==>
              sent != [] && Delivers(server(|sent| - 1, sent[|sent| - 1]), magic, min, r, file)
  {
    RequestsWellSent(url, host, server, 0);
    var landed;
    landed, sent := Follow(url, host, server);
    if landed.Err? {
      return Err(landed.error), sent, [];
    }
    BodyOfLastRequest(url, host, server, 0);
    r, file := Receive(landed.value.contentLength, landed.value.parts, magic, min);
    if Received(landed.value.parts).Ok? && (magic.Some? ==> |magic.value| <= HEAD) {
      VerdictOfBody(landed.value.parts, landed.value.contentLength, magic, min);
    }
  }

  /** What a response with a body leads to. */
  predicate Delivers(response: Response, magic: Option<seq<byte>>, min: nat, r: Result<seq<byte>>, file: seq<byte>) {
    response.Body? &&
    match Received(response.parts)
    case Err(e) => r == Err(e)
    case Ok(body) =>
      file == body && r == Judge(Head([], response.parts), body, response.contentLength, magic, min) &&
      ((magic.Some? ==> |magic.value| <= HEAD) ==> r == Judge(body, body, response.contentLength, magic, min))
  }

  /** Two ways of cutting the same body into reads cannot be told apart. */
  lemma {:induction false} SplitDoesNotMatter(parts: seq<Read>, chunks: seq<seq<byte>>)
    requires |parts| == |chunks|
    requires forall i :: 0 <= i < |chunks| ==> chunks[i] != [] && parts[i] == Data(chunks[i])
    ensures Received(parts) == Ok(Concat(chunks))
  {
    if parts != [] {
      SplitDoesNotMatter(parts[1..], chunks[1..]);
    }
  }

  function Concat(chunks: seq<seq<byte>>): seq<byte> {
    if chunks == [] then [] else chunks[0] + Concat(chunks[1..])
  }
}
