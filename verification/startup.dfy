/** Process start-up (`main` and `validateParameters`): the flags are
    checked, one gateway is created and logged into per host, and the proxy
    serves only when forced or when some login succeeded. */
module Startup {
  import opened GoValues
  import opened TeslaErrors
  import opened Gateway

  datatype ConfigError = HostRequired | HostEmpty | UsernameRequired | PasswordRequired

  function Message(e: ConfigError): Bytes
  {
    match e
    case HostRequired => Of("host is required")
    case HostEmpty => Of("host cannot be empty")
    case UsernameRequired => Of("username is required")
    case PasswordRequired => Of("password is required")
  }

  /** Which error a message text names. */
  function MessageKind(m: Bytes): Option<ConfigError>
  {
    if m == Message(HostRequired) then Some(HostRequired)
    else if m == Message(HostEmpty) then Some(HostEmpty)
    else if m == Message(UsernameRequired) then Some(UsernameRequired)
    else if m == Message(PasswordRequired) then Some(PasswordRequired)
    else None
  }

  /** The four errors are told apart by their texts alone. */
  lemma MessageRoundTrip(e: ConfigError)
    ensures MessageKind(Message(e)) == Some(e)
  {
    var host, empty := Message(HostRequired), Message(HostEmpty);
    var user, pass := Message(UsernameRequired), Message(PasswordRequired);
    assert |host| == 16 && |empty| == 20;
    assert empty[0] != user[0] && empty[0] != pass[0] && user[0] != pass[0];
  }

  /** The host loop: is some host the empty string? */
  function HasEmptyHost(hosts: seq<Bytes>): (b: bool)
    ensures b <==> exists i :: 0 <= i < |hosts| && hosts[i] == []
    decreases |hosts|
  {
    if |hosts| == 0 then false
    else if hosts[0] == [] then true
    else
      var rest := HasEmptyHost(hosts[1..]);
      assert forall i :: 1 <= i < |hosts| ==> hosts[i] == hosts[1..][i - 1];
      rest
  }

  /** The checks run in the order hosts, username, password, and the first
      one that fails decides the error. */
  function ValidateParameters(hosts: seq<Bytes>, username: Bytes, password: Bytes): (r: Option<ConfigError>)
    ensures |hosts| == 0 ==> r == Some(HostRequired)
    ensures |hosts| > 0 && (exists i :: 0 <= i < |hosts| && hosts[i] == []) ==> r == Some(HostEmpty)
    ensures |hosts| > 0 && (forall i :: 0 <= i < |hosts| ==> hosts[i] != []) && username == []
            ==> r == Some(UsernameRequired)
    ensures |hosts| > 0 && (forall i :: 0 <= i < |hosts| ==> hosts[i] != []) && username != [] && password == []
            ==> r == Some(PasswordRequired)
    ensures r.None? <==>
      |hosts| > 0 && (forall i :: 0 <= i < |hosts| ==> hosts[i] != []) && username != [] && password != []
  {
    if |hosts| == 0 then Some(HostRequired)
    else if HasEmptyHost(hosts) then Some(HostEmpty)
    else if username == [] then Some(UsernameRequired)
    else if password == [] then Some(PasswordRequired)
    else None
  }

  /** The command-line values `main` works from. */
  datatype Flags = Flags(hosts: seq<Bytes>, username: Bytes, password: Bytes, loginTimeout: int, force: bool)

  /** How start-up ends: the process exits with a message, or it serves the
      fan-out over these gateways. */
  datatype Outcome = Fatal(message: Bytes) | Serving(handlers: seq<Gateway>)

  /** One gateway per host, in host order. */
  function HandlersFor(flags: Flags): (hs: seq<Gateway>)
    ensures |hs| == |flags.hosts|
    ensures forall i :: 0 <= i < |hs| ==>
      hs[i] == NewGateway(flags.hosts[i], flags.username, flags.password, flags.loginTimeout)
  {
    seq(|flags.hosts|, i requires 0 <= i < |flags.hosts| =>
      NewGateway(flags.hosts[i], flags.username, flags.password, flags.loginTimeout))
  }

  /** The number of nil errors among the results: the success count. */
  function CountNil(results: seq<Option<Error>>): (n: nat)
    ensures n <= |results|
    ensures n == 0 <==> forall i :: 0 <= i < |results| ==> results[i].Some?
    ensures n == |results| <==> forall i :: 0 <= i < |results| ==> results[i].None?
    decreases |results|
  {
    if |results| == 0 then 0
    else
      var rest := CountNil(results[1..]);
      assert forall i :: 1 <= i < |results| ==> results[i] == results[1..][i - 1];
      (if results[0].None? then 1 else 0) + rest
  }

  /** The go/no-go rule. */
  predicate ShouldServe(force: bool, successes: nat) {
    force || successes > 0
  }

  function NoLoginMessage(hosts: seq<Bytes>): Bytes
  {
    Of("unable to login to any of the hosts: ") + Join(hosts, Of(", "))
  }

  /** `main` as written. `loginOutcomes[i]` is what the login to host i
      ended with; `main` waits for it through `Login` on a background
      context, which is never done, so the login always finishes first. */
  function MainAsWritten(flags: Flags, loginOutcomes: seq<Option<Error>>): (r: Outcome)
    requires |loginOutcomes| == |flags.hosts|
    ensures ValidateParameters(flags.hosts, flags.username, flags.password).Some? ==>
      r == Fatal(Message(ValidateParameters(flags.hosts, flags.username, flags.password).value))
  {
    match ValidateParameters(flags.hosts, flags.username, flags.password)
    case Some(e) => Fatal(Message(e))
    case None =>
      var results := seq(|flags.hosts|, i requires 0 <= i < |flags.hosts| =>
        Login(Background, LoginFirst, loginOutcomes[i]));
      if ShouldServe(flags.force, CountNil(results)) then Serving(HandlersFor(flags))
      else Fatal(NoLoginMessage(flags.hosts))
  }

  /** As written, a valid configuration always starts serving: every
      `Login` result is nil, so the success count is the number of hosts,
      whatever the logins themselves ended with and whether or not `force`
      is set. */
  lemma MainAsWrittenIgnoresLogins(flags: Flags, loginOutcomes: seq<Option<Error>>)
    requires |loginOutcomes| == |flags.hosts|
    requires ValidateParameters(flags.hosts, flags.username, flags.password).None?
    ensures MainAsWritten(flags, loginOutcomes) == Serving(HandlersFor(flags))
  {
    var results := seq(|flags.hosts|, i requires 0 <= i < |flags.hosts| =>
      Login(Background, LoginFirst, loginOutcomes[i]));
    assert CountNil(results) == |flags.hosts|;
  }

  /** The concrete case: one host, wrong credentials, no `force`, and the
      proxy starts anyway. */
  lemma WrongPasswordStillServes()
    ensures var flags := Flags([Of("gw")], Of("me@example.com"), Of("wrong"), 120, false);
      MainAsWritten(flags, [Some(Unauthorized)]).Serving?
  {
    var flags := Flags([Of("gw")], Of("me@example.com"), Of("wrong"), 120, false);
    MainAsWrittenIgnoresLogins(flags, [Some(Unauthorized)]);
  }

  /** `main` as its comment and its log messages describe it: a host counts
      as a success when its login succeeded. */
  function Main(flags: Flags, loginOutcomes: seq<Option<Error>>): (r: Outcome)
    requires |loginOutcomes| == |flags.hosts|
    ensures ValidateParameters(flags.hosts, flags.username, flags.password).Some? ==>
      r == Fatal(Message(ValidateParameters(flags.hosts, flags.username, flags.password).value))
    ensures ValidateParameters(flags.hosts, flags.username, flags.password).None? ==>
      (r.Serving? <==> flags.force || exists i :: 0 <= i < |loginOutcomes| && loginOutcomes[i].None?)
  {
    match ValidateParameters(flags.hosts, flags.username, flags.password)
    case Some(e) => Fatal(Message(e))
    case None =>
      if ShouldServe(flags.force, CountNil(loginOutcomes)) then Serving(HandlersFor(flags))
      else Fatal(NoLoginMessage(flags.hosts))
  }

  /** With a valid configuration, start-up serves exactly when forced or
      when at least one host's login succeeded; it then serves one gateway
      per host, failed ones included; otherwise it exits naming the hosts. */
  lemma MainGate(flags: Flags, loginOutcomes: seq<Option<Error>>)
    requires |loginOutcomes| == |flags.hosts|
    requires ValidateParameters(flags.hosts, flags.username, flags.password).None?
    ensures Main(flags, loginOutcomes).Serving? <==>
      flags.force || exists i :: 0 <= i < |loginOutcomes| && loginOutcomes[i].None?
    ensures Main(flags, loginOutcomes).Serving? ==> Main(flags, loginOutcomes).handlers == HandlersFor(flags)
    ensures Main(flags, loginOutcomes).Fatal? ==> Main(flags, loginOutcomes).message == NoLoginMessage(flags.hosts)
  {
  }
}
