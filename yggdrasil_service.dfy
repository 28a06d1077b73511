/**
 * The identity-backend descriptor (a Yggdrasil service): immutable configuration checked
 * once at construction, compared by path, and the two request builders that fill a
 * three-slot MessageFormat pattern with username, server id and the rendered ip part.
 */
module YggdrasilService {
  import opened Wrappers
  import MessageTemplate

  /**
   * The body's server type. CUSTOM and BLESSING_SKIN have their own arms in the
   * integrity check; `Official` stands for every type that takes the default arm.
   */
  datatype ServerType = Official | BlessingSkin | Custom

  /** The UUID conversion policy a backend applies to new records. */
  datatype ConvUuid = Preserve | NameDerived | RandomUuid

  /** YggdrasilServiceBody: every field is a nullable Java reference. */
  datatype Body = Body(
    serverType: Option<ServerType>,
    url: Option<string>,
    postMode: Option<bool>,
    postContent: Option<string>,
    passIp: Option<bool>,
    passIpContent: Option<string>,
    passIpContentByPost: Option<string>)

  datatype Service = Service(
    path: string,
    enable: bool,
    name: string,
    body: Body,
    convUuid: ConvUuid,
    convRepeat: bool,
    nameAllowedRegular: string,
    whitelist: bool,
    refuseRepeatedLogin: bool,
    authRetry: int)

  /**
   * Why a descriptor is refused: a missing value (CONFIGURATION_VALUE_ERROR naming the key),
   * a url pattern that cannot be formatted (URL_ILLEGAL_FORMAT), or a null Boolean that the
   * code unboxes without a check (a NullPointerException).
   */
  datatype ConfigError = ValueError(key: string) | UrlIllegalFormat | NullUnboxed(key: string)

  /** The keys the constructor checks, in the order it checks them. */
  const FieldKeys: seq<string> := ["path", "enable", "name", "body", "convUuid", "convRepeat",
                                   "nameAllowedRegular", "whitelist", "refuseRepeatedLogin", "authRetry"]

  /** The CUSTOM arm's checks: postMode present, and postContent present in post mode. */
  predicate CustomArmPasses(b: Body) {
    b.serverType == Some(Custom) ==> b.postMode.Some? && (b.postMode.value ==> b.postContent.Some?)
  }

  /** The BLESSING_SKIN arm's check, reached from CUSTOM too: the url is present. */
  predicate UrlArmPasses(b: Body) {
    b.serverType.Some? && b.serverType.value in {Custom, BlessingSkin} ==> b.url.Some?
  }

  /** The default arm's checks: passIp present, and when set, the ip pattern of the request mode. */
  predicate DefaultArmPasses(b: Body) {
    && b.passIp.Some?
    && (b.passIp.value ==>
          b.postMode.Some? &&
          (if b.postMode.value then b.passIpContentByPost.Some? else b.passIpContent.Some?))
  }

  /** Every null check of the switch passes. */
  predicate FieldsPresent(b: Body) {
    b.serverType.Some? && CustomArmPasses(b) && UrlArmPasses(b) && DefaultArmPasses(b)
  }

  /**
   * What a loadable body must hold, stated per server type rather than as the
   * fall-through switch that checks it: the fields its type needs, and a url that formats.
   */
  predicate Requirements(b: Body) {
    FieldsPresent(b) && b.url.Some? && MessageTemplate.Parse(b.url.value).Some?
  }

  /**
   * integrity(): the switch on the server type, whose CUSTOM arm falls through to the
   * BLESSING_SKIN arm and that one to the default arm, then a trial format of the url
   * with three empty arguments. A null url makes MessageFormat throw, which the catch
   * turns into URL_ILLEGAL_FORMAT like any other formatting failure.
   */
  function Integrity(b: Body): (r: Outcome<ConfigError>)
    ensures r.Pass? <==> Requirements(b)
    // the key each getOrThrow names, in the order the fall-through reaches them
    ensures b.serverType.None? ==> r == Fail(ValueError("serverType"))
    ensures b.serverType == Some(Custom) && b.postMode.None? ==> r == Fail(ValueError("postMode"))
    ensures b.serverType == Some(Custom) && b.postMode == Some(true) && b.postContent.None? ==>
              r == Fail(ValueError("postContent"))
    ensures (b.serverType.Some? && CustomArmPasses(b) && b.serverType.value in {Custom, BlessingSkin} &&
             b.url.None?) ==> r == Fail(ValueError("url"))
    ensures b.serverType.Some? && CustomArmPasses(b) && UrlArmPasses(b) && b.passIp.None? ==>
              r == Fail(ValueError("passIp"))
    ensures b.serverType.Some? && CustomArmPasses(b) && UrlArmPasses(b) && b.passIp == Some(true) ==>
              && (b.postMode.None? ==> r == Fail(NullUnboxed("postMode")))
              && (b.postMode == Some(true) && b.passIpContentByPost.None? ==>
                    r == Fail(ValueError("passIpContentByPost")))
              && (b.postMode == Some(false) && b.passIpContent.None? ==> r == Fail(ValueError("passIpContent")))
    // the trial format comes last, and a null or unparsable url fails it
    ensures FieldsPresent(b) && (b.url.None? || MessageTemplate.Parse(b.url.value).None?) ==>
              r == Fail(UrlIllegalFormat)
    ensures r == Fail(UrlIllegalFormat) ==> FieldsPresent(b) && (b.url.None? || MessageTemplate.Parse(b.url.value).None?)
    ensures r == Fail(NullUnboxed("postMode")) ==> b.serverType != Some(Custom) && b.passIp == Some(true)
  {
    if b.serverType.None? then Fail(ValueError("serverType"))
    else
      var t := b.serverType.value;
      // case CUSTOM
      if t == Custom && b.postMode.None? then Fail(ValueError("postMode"))
      else if t == Custom && b.postMode.value && b.postContent.None? then Fail(ValueError("postContent"))
      // case BLESSING_SKIN, reached from CUSTOM by fall-through
      else if (t == Custom || t == BlessingSkin) && b.url.None? then Fail(ValueError("url"))
      // default, reached by every type
      else if b.passIp.None? then Fail(ValueError("passIp"))
      else if b.passIp.value && b.postMode.None? then Fail(NullUnboxed("postMode"))
      else if b.passIp.value && b.postMode.value && b.passIpContentByPost.None? then Fail(ValueError("passIpContentByPost"))
      else if b.passIp.value && !b.postMode.value && b.passIpContent.None? then Fail(ValueError("passIpContent"))
      // MessageFormat.format(url, "", "", "")
      else if b.url.None? || MessageTemplate.Format(b.url.value, ["", "", ""]).None? then Fail(UrlIllegalFormat)
      else Pass
  }

  /** A descriptor the constructor would have returned. */
  predicate Valid(s: Service) {
    Integrity(s.body).Pass?
  }

  function Presence(path: Option<string>, enable: Option<bool>, name: Option<string>, body: Option<Body>,
                    convUuid: Option<ConvUuid>, convRepeat: Option<bool>, nameAllowedRegular: Option<string>,
                    whitelist: Option<bool>, refuseRepeatedLogin: Option<bool>, authRetry: Option<int>): seq<bool>
  {
    [path.Some?, enable.Some?, name.Some?, body.Some?, convUuid.Some?, convRepeat.Some?,
     nameAllowedRegular.Some?, whitelist.Some?, refuseRepeatedLogin.Some?, authRetry.Some?]
  }

  /** The position of the first `false`, the first null field when the constructor checks them in order. */
  function FirstMissing(present: seq<bool>): (r: Option<nat>)
    ensures r.Some? ==> r.value < |present| && !present[r.value] && forall j | 0 <= j < r.value :: present[j]
    ensures r.None? <==> forall j | 0 <= j < |present| :: present[j]
  {
    if present == [] then None
    else if !present[0] then Some(0)
    else
      match FirstMissing(present[1..])
      case None => None
      case Some(k) => Some(k + 1)
  }

  /**
   * The constructor: each field through getOrThrow in declaration order, then integrity().
   * The first missing field names the error.
   */
  function New(path: Option<string>, enable: Option<bool>, name: Option<string>, body: Option<Body>,
               convUuid: Option<ConvUuid>, convRepeat: Option<bool>, nameAllowedRegular: Option<string>,
               whitelist: Option<bool>, refuseRepeatedLogin: Option<bool>, authRetry: Option<int>)
    : (r: Result<Service, ConfigError>)
    ensures r.Success? <==>
              path.Some? && enable.Some? && name.Some? && body.Some? && convUuid.Some? && convRepeat.Some? &&
              nameAllowedRegular.Some? && whitelist.Some? && refuseRepeatedLogin.Some? && authRetry.Some? &&
              Requirements(body.value)
    ensures r.Success? ==> Valid(r.value) && r.value.path == path.value && r.value.body == body.value &&
                           r.value.name == name.value && r.value.nameAllowedRegular == nameAllowedRegular.value
    ensures r.Success? ==> r.value.enable == enable.value && r.value.convUuid == convUuid.value &&
                           r.value.convRepeat == convRepeat.value && r.value.whitelist == whitelist.value &&
                           r.value.refuseRepeatedLogin == refuseRepeatedLogin.value &&
                           r.value.authRetry == authRetry.value
    ensures (path.Some? && enable.Some? && name.Some? && body.Some? && convUuid.Some? && convRepeat.Some? &&
             nameAllowedRegular.Some? && whitelist.Some? && refuseRepeatedLogin.Some? && authRetry.Some? &&
             r.Failure?) ==> Integrity(body.value) == Fail(r.error)
  {
    var present := Presence(path, enable, name, body, convUuid, convRepeat,
                            nameAllowedRegular, whitelist, refuseRepeatedLogin, authRetry);
    match FirstMissing(present)
    case Some(k) => Failure(ValueError(FieldKeys[k]))
    case None =>
      assert present[0] && present[1] && present[2] && present[3] && present[4];
      assert present[5] && present[6] && present[7] && present[8] && present[9];
      match Integrity(body.value)
      case Fail(e) => Failure(e)
      case Pass =>
        Success(Service(path.value, enable.value, name.value, body.value, convUuid.value, convRepeat.value,
                        nameAllowedRegular.value, whitelist.value, refuseRepeatedLogin.value, authRetry.value))
  }

  /** The constructor's error names the first missing field, in declaration order. */
  lemma NewNamesFirstMissing(path: Option<string>, enable: Option<bool>, name: Option<string>, body: Option<Body>,
                             convUuid: Option<ConvUuid>, convRepeat: Option<bool>, nameAllowedRegular: Option<string>,
                             whitelist: Option<bool>, refuseRepeatedLogin: Option<bool>, authRetry: Option<int>, i: nat)
    requires var present := Presence(path, enable, name, body, convUuid, convRepeat,
                                     nameAllowedRegular, whitelist, refuseRepeatedLogin, authRetry);
             i < |present| && !present[i] && forall j | 0 <= j < i :: present[j]
    ensures New(path, enable, name, body, convUuid, convRepeat, nameAllowedRegular, whitelist,
                refuseRepeatedLogin, authRetry) == Failure(ValueError(FieldKeys[i]))
  {
    var present := Presence(path, enable, name, body, convUuid, convRepeat,
                            nameAllowedRegular, whitelist, refuseRepeatedLogin, authRetry);
    var k := FirstMissing(present).value;
    assert !(k < i) && !(i < k);
  }

  const TwoTo32: int := 0x1_0000_0000

  /** Java int arithmetic: the value congruent to `x` modulo 2^32 in [-2^31, 2^31). */
  function Int32(x: int): (r: int)
    ensures -0x8000_0000 <= r < 0x8000_0000
    ensures (x - r) % TwoTo32 == 0
  {
    var m := x % TwoTo32;
    if m >= 0x8000_0000 then m - TwoTo32 else m
  }

  /** The polynomial s[0]*31^(n-1) + ... + s[n-1] that String.hashCode documents, in exact arithmetic. */
  function PolynomialHash(s: string): int {
    if s == [] then 0 else 31 * PolynomialHash(s[..|s| - 1]) + s[|s| - 1] as int
  }

  /** String.hashCode: h = 31 * h + c over the characters, in 32-bit arithmetic. */
  function StringHash(s: string): (h: int)
    ensures -0x8000_0000 <= h < 0x8000_0000
    ensures (h - PolynomialHash(s)) % TwoTo32 == 0
  {
    if s == [] then 0
    else
      var prev := StringHash(s[..|s| - 1]);
      var h := Int32(31 * prev + s[|s| - 1] as int);
      HashStep(prev, PolynomialHash(s[..|s| - 1]), 31, s[|s| - 1] as int, h);
      h
  }

  /** One step of `31 * h + c` keeps a value congruent modulo 2^32 to the exact polynomial. */
  lemma HashStep(prev: int, exact: int, a: int, c: int, h: int)
    requires (prev - exact) % TwoTo32 == 0
    requires (a * prev + c - h) % TwoTo32 == 0
    requires a == 31 || a == 1
    ensures (h - (a * exact + c)) % TwoTo32 == 0
  {
    var k := (prev - exact) / TwoTo32;
    var m := (a * prev + c - h) / TwoTo32;
    assert prev - exact == TwoTo32 * k;
    assert a * prev + c - h == TwoTo32 * m;
    assert h - (a * exact + c) == TwoTo32 * (a * k - m);
  }

  /** hashCode(): Objects.hash(path), that is 31 * 1 + path.hashCode() in 32-bit arithmetic. */
  function HashCode(s: Service): (h: int)
    ensures -0x8000_0000 <= h < 0x8000_0000
    ensures (h - (31 + PolynomialHash(s.path))) % TwoTo32 == 0
  {
    var h := Int32(31 + StringHash(s.path));
    HashStep(StringHash(s.path), PolynomialHash(s.path), 1, 31, h);
    h
  }

  /** equals(): two descriptors are the same backend exactly when their paths agree. */
  function Equals(a: Service, b: Service): (r: bool)
    ensures r <==> a.path == b.path
    ensures r ==> HashCode(a) == HashCode(b)
  {
    a.path == b.path
  }

  /** equals is an equivalence relation, as java.lang.Object requires. */
  lemma EqualsIsEquivalence(a: Service, b: Service, c: Service)
    ensures Equals(a, a)
    ensures Equals(a, b) ==> Equals(b, a)
    ensures Equals(a, b) && Equals(b, c) ==> Equals(a, c)
  {
  }

  /** ValueUtil.notIsEmpty on the client's address. */
  predicate NotEmpty(ip: Option<string>) {
    ip.Some? && ip.value != []
  }

  /** Failures of the request builders: a null or illegal pattern, or a null Boolean unboxed. */
  datatype BuildError = NullPattern(key: string) | IllegalPattern(key: string) | NullMode

  /**
   * The text a builder puts in slot 2: the ip pattern formatted with the address when ip
   * passing is on and the address is non-empty, the empty string otherwise; `None` where
   * that formatting throws.
   */
  function IpPart(passIp: bool, pattern: Option<string>, ip: Option<string>): (r: Option<string>)
    requires passIp ==> pattern.Some?
    ensures r.None? <==> passIp && NotEmpty(ip) && MessageTemplate.Illegal(pattern.value)
    ensures !(passIp && NotEmpty(ip)) ==> r == Some("")
  {
    if passIp && NotEmpty(ip) then MessageTemplate.Format(pattern.value, [ip.value]) else Some("")
  }

  /** buildUrl(username, serverId, ip). */
  function BuildUrl(s: Service, username: string, serverId: string, ip: Option<string>)
    : (r: Result<string, BuildError>)
    requires Valid(s)
    ensures r.Failure? <==>
              s.body.postMode.None? ||
              (s.body.postMode == Some(false) && s.body.passIp == Some(true) && NotEmpty(ip) &&
               MessageTemplate.Parse(s.body.passIpContent.value).None?)
    // get mode: the url pattern with slot 0 the username, slot 1 the server id, slot 2 the ip part
    ensures s.body.postMode == Some(false) && r.Success? ==>
              var ipPart := IpPart(s.body.passIp.value, s.body.passIpContent, ip);
              ipPart.Some? &&
              r.value == MessageTemplate.Render(MessageTemplate.Parse(s.body.url.value).value,
                                                [username, serverId, ipPart.value])
  {
    var b := s.body;
    if b.postMode.None? then Failure(NullMode)
    else if b.postMode.value then Success(b.url.value)
    else if b.passIp.value && NotEmpty(ip) then
      match MessageTemplate.Format(b.passIpContent.value, [ip.value])
      case None => Failure(IllegalPattern("passIpContent"))
      case Some(ipPart) => Success(MessageTemplate.Format(b.url.value, [username, serverId, ipPart]).value)
    else Success(MessageTemplate.Format(b.url.value, [username, serverId, ""]).value)
  }

  /** Formats a nullable pattern; MessageFormat throws on a null pattern. */
  function FormatPattern(key: string, pattern: Option<string>, args: seq<string>): Result<Option<string>, BuildError> {
    if pattern.None? then Failure(NullPattern(key))
    else
      match MessageTemplate.Format(pattern.value, args)
      case None => Failure(IllegalPattern(key))
      case Some(text) => Success(Some(text))
  }

  /** buildPostContent(username, serverId, ip): `None` (null) outside post mode. */
  function BuildPostContent(s: Service, username: string, serverId: string, ip: Option<string>)
    : (r: Result<Option<string>, BuildError>)
    requires Valid(s)
    ensures s.body.postMode == Some(false) <==> r == Success(None)
    ensures r.Success? && r.value.Some? ==> s.body.postMode == Some(true) && s.body.postContent.Some?
    // post mode: the body pattern with slot 0 the username, slot 1 the server id, slot 2 the ip part
    ensures s.body.postMode == Some(true) && r.Success? ==>
              var ipPart := IpPart(s.body.passIp.value, s.body.passIpContentByPost, ip);
              ipPart.Some? && MessageTemplate.Parse(s.body.postContent.value).Some? &&
              r.value == Some(MessageTemplate.Render(MessageTemplate.Parse(s.body.postContent.value).value,
                                                     [username, serverId, ipPart.value]))
  {
    var b := s.body;
    if b.postMode.None? then Failure(NullMode)
    else if !b.postMode.value then Success(None)
    else if b.passIp.value && NotEmpty(ip) then
      match MessageTemplate.Format(b.passIpContentByPost.value, [ip.value])
      case None => Failure(IllegalPattern("passIpContentByPost"))
      case Some(ipPart) => FormatPattern("postContent", b.postContent, [username, serverId, ipPart])
    else FormatPattern("postContent", b.postContent, [username, serverId, ""])
  }

  /**
   * Where the get-mode url pattern has an argument slot k below 3, the url is the text
   * before it, then the k-th of username, server id and ip part, then the text after it.
   */
  lemma {:induction false} UrlSlotFilled(s: Service, username: string, serverId: string, ip: Option<string>,
                                         before: seq<MessageTemplate.Segment>, k: nat,
                                         after: seq<MessageTemplate.Segment>)
    requires Valid(s) && s.body.postMode == Some(false)
    requires BuildUrl(s, username, serverId, ip).Success?
    requires MessageTemplate.Parse(s.body.url.value) == Some(before + [MessageTemplate.Arg(k)] + after)
    requires k < 3
    ensures var ipPart := IpPart(s.body.passIp.value, s.body.passIpContent, ip).value;
            var args := [username, serverId, ipPart];
            BuildUrl(s, username, serverId, ip).value ==
              MessageTemplate.Render(before, args) + [username, serverId, ipPart][k] +
              MessageTemplate.Render(after, args)
  {
    var ipPart := IpPart(s.body.passIp.value, s.body.passIpContent, ip).value;
    var args := [username, serverId, ipPart];
    MessageTemplate.RenderConcat(before + [MessageTemplate.Arg(k)], after, args);
    MessageTemplate.RenderConcat(before, [MessageTemplate.Arg(k)], args);
    MessageTemplate.RenderSlot(k, args);
  }

  /** In post mode the url is sent as configured, whatever the login. */
  lemma PostModeUrlVerbatim(s: Service, username: string, serverId: string, ip: Option<string>)
    requires Valid(s) && s.body.postMode == Some(true)
    ensures BuildUrl(s, username, serverId, ip) == Success(s.body.url.value)
  {
  }

  /** With ip passing off, the url does not depend on the client's address. */
  lemma UrlIgnoresIpWhenNotPassed(s: Service, username: string, serverId: string, ip1: Option<string>, ip2: Option<string>)
    requires Valid(s) && s.body.passIp == Some(false)
    ensures BuildUrl(s, username, serverId, ip1) == BuildUrl(s, username, serverId, ip2)
  {
  }

  /**
   * The address only reaches the url through slot 2: when the url pattern has no `{2}`,
   * every address gives the url an empty address would.
   */
  lemma UrlReadsIpOnlyThroughSlot2(s: Service, username: string, serverId: string, ip: Option<string>)
    requires Valid(s) && s.body.postMode == Some(false)
    requires 2 !in MessageTemplate.Slots(MessageTemplate.Parse(s.body.url.value).value)
    requires BuildUrl(s, username, serverId, ip).Success?
    ensures BuildUrl(s, username, serverId, ip) == BuildUrl(s, username, serverId, None)
  {
    var t := MessageTemplate.Parse(s.body.url.value).value;
    if s.body.passIp.value && NotEmpty(ip) {
      var ipPart := MessageTemplate.Format(s.body.passIpContent.value, [ip.value]).value;
      MessageTemplate.RenderReadsOnlySlots(t, [username, serverId, ipPart], [username, serverId, ""]);
    }
  }

  /** The get-mode twin of a post-mode descriptor: the body pattern used as url. */
  function GetModeTwin(s: Service): Service {
    s.(body := s.body.(postMode := Some(false), url := s.body.postContent,
                       passIpContent := s.body.passIpContentByPost))
  }

  /**
   * buildPostContent mirrors buildUrl: in post mode it returns what buildUrl returns for
   * the get-mode twin, failing only where that one fails.
   */
  lemma PostContentMirrorsUrl(s: Service, username: string, serverId: string, ip: Option<string>)
    requires Valid(s) && s.body.postMode == Some(true)
    requires s.body.postContent.Some? && MessageTemplate.Parse(s.body.postContent.value).Some?
    ensures Valid(GetModeTwin(s))
    ensures match BuildUrl(GetModeTwin(s), username, serverId, ip)
            case Success(text) => BuildPostContent(s, username, serverId, ip) == Success(Some(text))
            case Failure(_) => BuildPostContent(s, username, serverId, ip) == Failure(IllegalPattern("passIpContentByPost"))
  {
    assert Requirements(GetModeTwin(s).body);
  }
}
