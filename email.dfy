/**
 * Outgoing mail (backend/app/email_service.py): the sender accounts read from a JSON file, the SMTP options
 * derived from each account, and failover across the accounts in file order. The file system is a map from
 * paths to contents, `json.loads` is a parameter, and delivering one message through one account (connect,
 * log in, send) is a parameter that says whether it went through.
 */
module Email {
  import opened Wrappers
  import opened Text
  import opened Json

  type Env = map<string, string>
  type Files = map<string, string>
  type Account = map<string, Json>

  /** The sender file used when `EMAIL_SENDERS_FILE` is unset or empty. */
  const DEFAULT_CONFIG_PATH := "backend/email_senders.json"
  const DEFAULT_SMTP_PORT := 587
  /** The keys every usable account has. */
  const REQUIRED_KEYS: set<string> := {"from_email", "host", "port", "username", "password"}

  /** The path the configuration is read from. */
  function ConfigPath(env: Env): (path: string)
    ensures "EMAIL_SENDERS_FILE" in env && env["EMAIL_SENDERS_FILE"] != [] ==> path == env["EMAIL_SENDERS_FILE"]
    ensures !("EMAIL_SENDERS_FILE" in env && env["EMAIL_SENDERS_FILE"] != []) ==> path == DEFAULT_CONFIG_PATH
  {
    if "EMAIL_SENDERS_FILE" in env && env["EMAIL_SENDERS_FILE"] != [] then env["EMAIL_SENDERS_FILE"] else DEFAULT_CONFIG_PATH
  }

  /** A list entry that is kept: an object holding every required key. */
  predicate IsAccount(entry: Json) {
    entry.JObj? && REQUIRED_KEYS <= entry.fields.Keys
  }

  /** The entries that are kept, in order. */
  function Accounts(entries: seq<Json>): (r: seq<Account>)
    ensures |r| <= |entries|
    ensures forall i :: 0 <= i < |r| ==> REQUIRED_KEYS <= r[i].Keys
  {
    if entries == [] then []
    else
      var last := entries[|entries| - 1];
      Accounts(entries[..|entries| - 1]) + (if IsAccount(last) then [last.fields] else [])
  }

  /** Every kept account comes from an entry, and every qualifying entry is kept. */
  lemma {:induction false} AccountsMembers(entries: seq<Json>)
    ensures forall a :: a in Accounts(entries) ==> JObj(a) in entries && IsAccount(JObj(a))
    ensures forall i :: 0 <= i < |entries| && IsAccount(entries[i]) ==> entries[i].fields in Accounts(entries)
    decreases |entries|
  {
    if entries != [] {
      var front := entries[..|entries| - 1];
      AccountsMembers(front);
      assert forall x :: x in front ==> x in entries;
      forall i | 0 <= i < |entries| && IsAccount(entries[i])
        ensures entries[i].fields in Accounts(entries)
      {
        if i < |front| {
          assert entries[i] == front[i];
        }
      }
    }
  }

  /** When every entry qualifies, all of them are kept, in order. */
  lemma {:induction false} AccountsOfAccounts(entries: seq<Json>)
    requires forall i :: 0 <= i < |entries| ==> IsAccount(entries[i])
    ensures |Accounts(entries)| == |entries|
    ensures forall i :: 0 <= i < |entries| ==> JObj(Accounts(entries)[i]) == entries[i]
    decreases |entries|
  {
    if entries != [] {
      var front := entries[..|entries| - 1];
      assert forall i :: 0 <= i < |front| ==> front[i] == entries[i];
      AccountsOfAccounts(front);
    }
  }

  /**
   * What `_load_sender_configs` yields: nothing for a missing file, one `json.loads` rejects, or a document that
   * is not a list; otherwise the qualifying entries.
   */
  function SenderAccounts(env: Env, files: Files, parse: string -> Option<Json>): (r: seq<Account>)
    ensures ConfigPath(env) !in files ==> r == []
    ensures ConfigPath(env) in files && !(parse(files[ConfigPath(env)]).Some? && parse(files[ConfigPath(env)]).value.JArr?) ==> r == []
  {
    var path := ConfigPath(env);
    if path !in files then []
    else match parse(files[path])
      case Some(JArr(entries)) => Accounts(entries)
      case _ => []
  }

  /** `_load_sender_configs`: the loop over the list that keeps the qualifying entries. */
  method LoadSenderConfigs(env: Env, files: Files, parse: string -> Option<Json>) returns (configs: seq<Account>)
    ensures configs == SenderAccounts(env, files, parse)
  {
    var path := ConfigPath(env);
    if path !in files {
      return [];
    }
    var data := parse(files[path]);
    if !(data.Some? && data.value.JArr?) {
      return [];
    }
    var entries := data.value.items;
    configs := [];
    var i := 0;
    while i < |entries|
      invariant 0 <= i <= |entries|
      invariant configs == Accounts(entries[..i])
    {
      var entry := entries[i];
      assert entries[..i + 1][..i] == entries[..i];
      if entry.JObj? && REQUIRED_KEYS <= entry.fields.Keys {
        configs := configs + [entry.fields];
      }
      i := i + 1;
    }
    assert entries[..i] == entries;
  }

  // ---------------------------------------------------------------------------
  // SMTP options of one account

  datatype SmtpOptions = SmtpOptions(host: Json, port: int, useSsl: bool, useTls: bool, startTls: bool)

  /** Truncation toward zero, as `int()` converts a float. */
  function Truncate(x: real): (r: int)
    ensures x >= 0.0 ==> r == x.Floor
    ensures x < 0.0 ==> r == -((-x).Floor)
  {
    if x >= 0.0 then x.Floor else -((-x).Floor)
  }

  /** Python `int(v)` of a JSON value: booleans as 0/1, numbers truncated, strings parsed; others raise. */
  function PyInt(v: Json): (r: Option<int>)
    ensures v.JBool? ==> r == Some(if v.b then 1 else 0)
    ensures v.JNum? ==> r == Some(Truncate(v.n))
    ensures v.JStr? ==> r == PyParseInt(v.s, 10)
    ensures v.JNull? || v.JArr? || v.JObj? ==> r.None?
  {
    match v
    case JBool(b) => Some(if b then 1 else 0)
    case JNum(n) => Some(Truncate(n))
    case JStr(s) => PyParseInt(s, 10)
    case _ => None
  }

  /**
   * The options `_send_with_config` connects with: port 587 unless given, SSL off unless given, TLS on exactly
   * when SSL is off unless given; STARTTLS is issued iff TLS is on and SSL off. A port `int()` rejects makes
   * the attempt fail (None).
   */
  function SmtpOptionsOf(account: Account): (r: Option<SmtpOptions>)
    requires "host" in account
    ensures r.Some? ==> r.value.host == account["host"]
    ensures r.Some? && "port" !in account ==> r.value.port == DEFAULT_SMTP_PORT
    ensures r.Some? && "port" in account ==> PyInt(account["port"]) == Some(r.value.port)
    ensures r.Some? && "use_ssl" !in account ==> !r.value.useSsl
    ensures r.Some? && "use_ssl" in account ==> r.value.useSsl == PyTruthy(account["use_ssl"])
    ensures r.Some? && "use_tls" !in account ==> r.value.useTls == !r.value.useSsl
    ensures r.Some? && "use_tls" in account ==> r.value.useTls == PyTruthy(account["use_tls"])
    ensures r.Some? ==> (r.value.startTls <==> r.value.useTls && !r.value.useSsl)
    ensures r.None? <==> "port" in account && PyInt(account["port"]).None?
  {
    var port := if "port" in account then PyInt(account["port"]) else Some(DEFAULT_SMTP_PORT);
    var useSsl := "use_ssl" in account && PyTruthy(account["use_ssl"]);
    var useTls := if "use_tls" in account then PyTruthy(account["use_tls"]) else !useSsl;
    match port
    case None => None
    case Some(p) => Some(SmtpOptions(account["host"], p, useSsl, useTls, useTls && !useSsl))
  }

  /** An account naming neither flag is plain SMTP upgraded with STARTTLS; one asking for SSL never does STARTTLS. */
  lemma SmtpDefaults(account: Account)
    requires "host" in account && SmtpOptionsOf(account).Some?
    ensures "use_ssl" !in account && "use_tls" !in account ==>
      !SmtpOptionsOf(account).value.useSsl && SmtpOptionsOf(account).value.startTls
    ensures SmtpOptionsOf(account).value.useSsl ==> !SmtpOptionsOf(account).value.startTls
  {
  }

  // ---------------------------------------------------------------------------
  // Sending

  datatype Message = Message(subject: string, from: string, to: string, body: string)

  /** What `send_email` is asked to send: recipient, subject, body and an optional sender name. */
  datatype Mail = Mail(to: string, subject: string, body: string, fromName: Option<string>)

  /** The text of the `from_email` value of an account. */
  function AddressText(v: Json): string {
    if v.JStr? then v.s else ""
  }

  /** The `From` header: `name <address>` when a non-empty name is given, else the bare address. */
  function FromHeader(fromName: Option<string>, address: string): (r: string)
    ensures fromName.Some? && fromName.value != [] ==> r == fromName.value + " <" + address + ">"
    ensures !(fromName.Some? && fromName.value != []) ==> r == address
  {
    if fromName.Some? && fromName.value != [] then fromName.value + " <" + address + ">" else address
  }

  /** The message built for one account. */
  function MessageFor(account: Account, mail: Mail): (m: Message)
    requires "from_email" in account
    ensures m.subject == mail.subject && m.to == mail.to && m.body == mail.body
    ensures m.from == FromHeader(mail.fromName, AddressText(account["from_email"]))
  {
    Message(mail.subject, FromHeader(mail.fromName, AddressText(account["from_email"])), mail.to, mail.body)
  }

  /** How one delivery through one account turns out: options, user name, password and message in, success out. */
  type Deliver = (SmtpOptions, Json, Json, Message) -> bool

  predicate AllAccounts(accounts: seq<Account>) {
    forall i :: 0 <= i < |accounts| ==> REQUIRED_KEYS <= accounts[i].Keys
  }

  /** Whether sending through one account succeeds: its options must be usable and the delivery must go through. */
  predicate Works(account: Account, mail: Mail, deliver: Deliver)
    requires REQUIRED_KEYS <= account.Keys
  {
    match SmtpOptionsOf(account)
    case None => false
    case Some(options) => deliver(options, account["username"], account["password"], MessageFor(account, mail))
  }

  /** The index of the first account from `from` on through which sending succeeds. */
  function FirstSuccess(accounts: seq<Account>, from: nat, mail: Mail, deliver: Deliver): (r: Option<nat>)
    requires AllAccounts(accounts) && from <= |accounts|
    ensures r.Some? ==> from <= r.value < |accounts| && Works(accounts[r.value], mail, deliver)
    ensures r.Some? ==> forall j :: from <= j < r.value ==> !Works(accounts[j], mail, deliver)
    ensures r.None? ==> forall j :: from <= j < |accounts| ==> !Works(accounts[j], mail, deliver)
    decreases |accounts| - from
  {
    if from == |accounts| then None
    else if Works(accounts[from], mail, deliver) then Some(from)
    else FirstSuccess(accounts, from + 1, mail, deliver)
  }

  /**
   * `send_email`: try the accounts in order and stop at the first that works. `tried` lists the accounts
   * attempted, in order, and `sent` says whether one succeeded.
   */
  method SendEmail(env: Env, files: Files, parse: string -> Option<Json>, deliver: Deliver, mail: Mail)
    returns (sent: bool, tried: seq<nat>)
    ensures var first := FirstSuccess(SenderAccounts(env, files, parse), 0, mail, deliver);
      && sent == first.Some?
      && |tried| == (if first.Some? then first.value + 1 else |SenderAccounts(env, files, parse)|)
      && (forall k :: 0 <= k < |tried| ==> tried[k] == k)
  {
    var configs := LoadSenderConfigs(env, files, parse);
    if configs == [] {
      return false, [];
    }
    tried := [];
    var i := 0;
    while i < |configs|
      invariant 0 <= i <= |configs|
      invariant FirstSuccess(configs, 0, mail, deliver) == FirstSuccess(configs, i, mail, deliver)
      invariant |tried| == i && forall k :: 0 <= k < i ==> tried[k] == k
    {
      var config := configs[i];
      var message := MessageFor(config, mail);
      tried := tried + [i];
      var ok := false;
      var options := SmtpOptionsOf(config);
      if options.Some? {
        ok := deliver(options.value, config["username"], config["password"], message);
      }
      if ok {
        return true, tried;
      }
      i := i + 1;
    }
    return false, tried;
  }

  /** With no usable account nothing is sent. */
  lemma NoAccountsNoMail(mail: Mail, deliver: Deliver)
    ensures FirstSuccess([], 0, mail, deliver).None?
  {
  }

  /** When the first account works, it is the one used, whatever the others would do. */
  lemma FirstAccountWins(accounts: seq<Account>, mail: Mail, deliver: Deliver)
    requires AllAccounts(accounts) && |accounts| >= 1 && Works(accounts[0], mail, deliver)
    ensures FirstSuccess(accounts, 0, mail, deliver) == Some(0)
  {
  }

  /** An account that fails is skipped: the search goes on with the next one. */
  lemma FailedAccountSkipped(accounts: seq<Account>, i: nat, mail: Mail, deliver: Deliver)
    requires AllAccounts(accounts) && i < |accounts| && !Works(accounts[i], mail, deliver)
    ensures FirstSuccess(accounts, i, mail, deliver) == FirstSuccess(accounts, i + 1, mail, deliver)
  {
  }

  // ---------------------------------------------------------------------------
  // The verification message

  /** The subject: the application's name, then a bilingual label. */
  function VerificationSubject(appName: string): (subject: string)
    ensures StartsWith(subject, appName)
  {
    appName + " 验证码 / Verification Code"
  }

  const BODY_HEAD := "您好！\n\n您的验证码是："
  const BODY_MIDDLE := "\n15 分钟内有效，请勿泄露给他人。\n\nHello,\n\nYour verification code is: "
  const BODY_TAIL := "\nIt will expire in 15 minutes.\n"

  /** The body, which states the code once in Chinese and once in English. */
  function VerificationBody(code: string): (body: string)
    ensures InfixAt(code, body, |BODY_HEAD|)
    ensures InfixAt(code, body, |BODY_HEAD| + |code| + |BODY_MIDDLE|)
  {
    var body := BODY_HEAD + code + BODY_MIDDLE + code + BODY_TAIL;
    assert body[|BODY_HEAD|..|BODY_HEAD| + |code|] == code;
    assert body[|BODY_HEAD| + |code| + |BODY_MIDDLE|..|BODY_HEAD| + |code| + |BODY_MIDDLE| + |code|] == code;
    body
  }

  /** The mail `send_verification_email` asks for. */
  function VerificationMail(toEmail: string, code: string, appName: string): (mail: Mail)
    ensures mail.to == toEmail && mail.fromName == Some(appName)
    ensures StartsWith(mail.subject, appName)
    ensures InfixAt(code, mail.body, |BODY_HEAD|)
  {
    Mail(toEmail, VerificationSubject(appName), VerificationBody(code), Some(appName))
  }

  /** `send_verification_email`: the code mail, sent under the application's name. */
  method SendVerificationEmail(env: Env, files: Files, parse: string -> Option<Json>, deliver: Deliver,
                               toEmail: string, code: string, appName: string)
    returns (sent: bool)
    ensures sent == FirstSuccess(SenderAccounts(env, files, parse), 0, VerificationMail(toEmail, code, appName), deliver).Some?
  {
    var tried;
    sent, tried := SendEmail(env, files, parse, deliver, VerificationMail(toEmail, code, appName));
  }
}
