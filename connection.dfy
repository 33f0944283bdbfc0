/**
 * The connection the task asks Overthere for: the protocol name and the connection options,
 * built from the task's attributes before any remote call.
 */
module Connection {
  import opened Wrappers
  import opened Errors
  import opened Text
  import opened Options
  import Jumpstation

  /** Protocol name, the options map, and the nested options of the jumpstation hop if there is one. */
  datatype Connection = Connection(protocol: string, options: Options, jumpstation: Option<Options>)

  /** The WinRM timeout in the duration form the library expects. */
  function TimeoutText(seconds: int): string
  {
    "PT" + Decimal(seconds) + ".000S"
  }

  /** The timeout text of a positive number of seconds is "PT", the seconds in decimal, then ".000S". */
  lemma TimeoutTextReadsBack(seconds: int)
    requires seconds > 0
    ensures var t := TimeoutText(seconds);
      |t| > 7 && t[..2] == "PT" && t[|t| - 5..] == ".000S"
      && IsNumeral(t[2..|t| - 5]) && ParseNat(t[2..|t| - 5]) == seconds
  {
    var t := TimeoutText(seconds);
    DecimalRoundTrip(seconds);
    assert t[2..|t| - 5] == Decimal(seconds);
  }

  /** The login name: `username@DOMAIN` with the domain upper-cased when a domain is set. */
  function LoginName(username: Option<string>, domain: Option<string>): (v: Value)
    ensures domain.Some? ==> v == Str(JavaString(username) + "@" + Upper(domain.value))
    ensures domain.None? ==> v == StrOrNull(username)
  {
    if domain.Some? then Str(JavaString(username) + "@" + Upper(domain.value)) else StrOrNull(username)
  }

  /** The options every connection gets: address, login, password and operating system family. */
  function BaseOptions(host: string, username: Option<string>, password: Option<string>, os: string,
                       domain: Option<string>): (o: Options)
    ensures o.Keys == {Address, Username, Password, OperatingSystem}
    ensures o[Address] == Str(host) && o[Username] == LoginName(username, domain)
            && o[Password] == StrOrNull(password) && o[OperatingSystem] == Family(Upper(os))
  {
    var empty: Options := map[];
    empty[Address := Str(host)][Username := LoginName(username, domain)][Password := StrOrNull(password)]
         [OperatingSystem := Family(Upper(os))]
  }

  /** The WinRM options, added only for os "WINDOWS": the type always, the rest when asked for. */
  function WinRmOptions(https: bool, locale: Option<string>, timeout: int): (o: Options)
    ensures ConnectionType in o && o[ConnectionType] == WinRm
    ensures (WinrmEnableHttps in o <==> https) && (WinrmTrustStrategy in o <==> https)
            && (WinrmLocale in o <==> locale.Some?) && (WinrmTimeout in o <==> timeout > 0)
    ensures https ==> o[WinrmEnableHttps] == Str("true") && o[WinrmTrustStrategy] == Str("SELF_SIGNED")
    ensures locale.Some? ==> o[WinrmLocale] == Str(locale.value)
    ensures timeout > 0 ==> o[WinrmTimeout] == Str(TimeoutText(timeout))
    ensures Address !in o && Username !in o && Password !in o && OperatingSystem !in o
    ensures o.Keys <= {ConnectionType, WinrmEnableHttps, WinrmTrustStrategy, WinrmLocale, WinrmTimeout}
  {
    var withType := map[ConnectionType := WinRm];
    var withHttps := if https then withType[WinrmEnableHttps := Str("true")][WinrmTrustStrategy := Str("SELF_SIGNED")]
                     else withType;
    var withLocale := if locale.Some? then withHttps[WinrmLocale := Str(locale.value)] else withHttps;
    if timeout > 0 then withLocale[WinrmTimeout := Str(TimeoutText(timeout))] else withLocale
  }

  /**
   * Everything before `Overthere.getConnection`: reject a missing host, name the operating
   * system family, parse the jumpstation string and choose the protocol.
   */
  function Setup(host: Option<string>, username: Option<string>, password: Option<string>, os: string,
                 domain: Option<string>, jumpstation: Option<string>, https: bool, locale: Option<string>,
                 timeout: int, isFamily: string -> bool): Result<Connection, Error>
  {
    if host.None? || host.value == "" then Err(MissingHost)
    else if !isFamily(Upper(os)) then Err(UnknownOs(os))
    else
      var base := BaseOptions(host.value, username, password, os, domain);
      var jump := if jumpstation.Some? then Some(Jumpstation.JumpOptions(jumpstation.value)) else None;
      if jump.Some? && jump.value.Err? then Err(jump.value.error)
      else
        var hop := if jump.Some? then Some(jump.value.value) else None;
        if os == "WINDOWS" then Ok(Connection("cifs", base + WinRmOptions(https, locale, timeout), hop))
        else Ok(Connection("ssh", base, hop))
  }

  /** `Setup`'s checks happen in this order, and nothing else fails. */
  lemma SetupFailures(host: Option<string>, username: Option<string>, password: Option<string>, os: string,
                      domain: Option<string>, jumpstation: Option<string>, https: bool, locale: Option<string>,
                      timeout: int, isFamily: string -> bool)
    ensures var r := Setup(host, username, password, os, domain, jumpstation, https, locale, timeout, isFamily);
      (host.None? || host.value == "") ==> r == Err(MissingHost)
    ensures var r := Setup(host, username, password, os, domain, jumpstation, https, locale, timeout, isFamily);
      host.Some? && host.value != "" && !isFamily(Upper(os)) ==> r == Err(UnknownOs(os))
    ensures var r := Setup(host, username, password, os, domain, jumpstation, https, locale, timeout, isFamily);
      (host.Some? && host.value != "" && isFamily(Upper(os)) && jumpstation.Some?
       && Jumpstation.JumpOptions(jumpstation.value).Err?)
      ==> r == Err(Jumpstation.JumpOptions(jumpstation.value).error)
    ensures var r := Setup(host, username, password, os, domain, jumpstation, https, locale, timeout, isFamily);
      r.Ok? <==> (host.Some? && host.value != "" && isFamily(Upper(os))
                 && (jumpstation.None? || Jumpstation.JumpOptions(jumpstation.value).Ok?))
  {
  }

  /** A successful `Setup`: the protocol follows the os name, and the options are exactly those the task sets:
   *  the four base keys, plus the WinRM keys with their values for os "WINDOWS", and no other key. */
  lemma SetupOptions(host: Option<string>, username: Option<string>, password: Option<string>, os: string,
                     domain: Option<string>, jumpstation: Option<string>, https: bool, locale: Option<string>,
                     timeout: int, isFamily: string -> bool)
    requires Setup(host, username, password, os, domain, jumpstation, https, locale, timeout, isFamily).Ok?
    ensures var r := Setup(host, username, password, os, domain, jumpstation, https, locale, timeout, isFamily);
      (r.value.protocol == "cifs" <==> os == "WINDOWS")
        && (r.value.protocol == "ssh" <==> os != "WINDOWS")
    ensures var r := Setup(host, username, password, os, domain, jumpstation, https, locale, timeout, isFamily);
      Address in r.value.options && Username in r.value.options
        && Password in r.value.options && OperatingSystem in r.value.options
    ensures var r := Setup(host, username, password, os, domain, jumpstation, https, locale, timeout, isFamily);
      r.value.options[Address] == Str(host.value)
        && r.value.options[Username] == LoginName(username, domain)
        && r.value.options[Password] == StrOrNull(password)
        && r.value.options[OperatingSystem] == Family(Upper(os))
    ensures var r := Setup(host, username, password, os, domain, jumpstation, https, locale, timeout, isFamily);
      (ConnectionType in r.value.options <==> os == "WINDOWS")
        && (WinrmEnableHttps in r.value.options <==> os == "WINDOWS" && https)
        && (WinrmTrustStrategy in r.value.options <==> os == "WINDOWS" && https)
        && (WinrmLocale in r.value.options <==> os == "WINDOWS" && locale.Some?)
        && (WinrmTimeout in r.value.options <==> os == "WINDOWS" && timeout > 0)
    ensures var r := Setup(host, username, password, os, domain, jumpstation, https, locale, timeout, isFamily);
      r.value.options.Keys <= {Address, Username, Password, OperatingSystem, ConnectionType,
                               WinrmEnableHttps, WinrmTrustStrategy, WinrmLocale, WinrmTimeout}
    ensures var r := Setup(host, username, password, os, domain, jumpstation, https, locale, timeout, isFamily);
      os == "WINDOWS" ==> r.value.options[ConnectionType] == WinRm
    ensures var r := Setup(host, username, password, os, domain, jumpstation, https, locale, timeout, isFamily);
      os == "WINDOWS" && https ==> (r.value.options[WinrmEnableHttps] == Str("true")
                                    && r.value.options[WinrmTrustStrategy] == Str("SELF_SIGNED"))
    ensures var r := Setup(host, username, password, os, domain, jumpstation, https, locale, timeout, isFamily);
      os == "WINDOWS" && locale.Some? ==> r.value.options[WinrmLocale] == Str(locale.value)
    ensures var r := Setup(host, username, password, os, domain, jumpstation, https, locale, timeout, isFamily);
      WinrmTimeout in r.value.options ==> r.value.options[WinrmTimeout] == Str(TimeoutText(timeout))
    ensures var r := Setup(host, username, password, os, domain, jumpstation, https, locale, timeout, isFamily);
      r.value.options == if os == "WINDOWS"
        then BaseOptions(host.value, username, password, os, domain) + WinRmOptions(https, locale, timeout)
        else BaseOptions(host.value, username, password, os, domain)
    ensures var r := Setup(host, username, password, os, domain, jumpstation, https, locale, timeout, isFamily);
      r.value.jumpstation == if jumpstation.None? then None
        else Some(Jumpstation.JumpOptions(jumpstation.value).value)
  {
    var base := BaseOptions(host.value, username, password, os, domain);
    if os == "WINDOWS" {
      var winrm := WinRmOptions(https, locale, timeout);
      assert Setup(host, username, password, os, domain, jumpstation, https, locale, timeout, isFamily).value.options == base + winrm;
    }
  }

  /**
   * The option building of `execute()`, one `set` at a time, with the jumpstation string read
   * by the tokenizer loop.
   */
  method Configure(host: Option<string>, username: Option<string>, password: Option<string>, os: string,
                   domain: Option<string>, jumpstation: Option<string>, https: bool, locale: Option<string>,
                   timeout: int, isFamily: string -> bool) returns (r: Result<Connection, Error>)
    ensures r == Setup(host, username, password, os, domain, jumpstation, https, locale, timeout, isFamily)
  {
    if host.None? || host.value == "" {
      return Err(MissingHost);
    }
    var options: Options := map[];
    options := options[Address := Str(host.value)];
    options := options[Username := LoginName(username, domain)];
    options := options[Password := StrOrNull(password)];
    if !isFamily(Upper(os)) {
      return Err(UnknownOs(os));
    }
    options := options[OperatingSystem := Family(Upper(os))];
    ghost var base := options;
    var hop: Option<Options> := None;
    if jumpstation.Some? {
      var jo := Jumpstation.ParseJumpstation(jumpstation.value);
      if jo.Err? {
        return Err(jo.error);
      }
      hop := Some(jo.value);
    }
    var proto := "ssh";
    if os == "WINDOWS" {
      options := AddWinRmOptions(options, https, locale, timeout);
      proto := "cifs";
    }
    assert base == BaseOptions(host.value, username, password, os, domain);
    r := Ok(Connection(proto, options, hop));
  }

  /** The WINDOWS branch's `set` calls on the options built so far. */
  method AddWinRmOptions(options: Options, https: bool, locale: Option<string>, timeout: int) returns (o: Options)
    ensures o == options + WinRmOptions(https, locale, timeout)
  {
    o := options[ConnectionType := WinRm];
    if https {
      o := o[WinrmEnableHttps := Str("true")];
      o := o[WinrmTrustStrategy := Str("SELF_SIGNED")];
    }
    if locale.Some? {
      o := o[WinrmLocale := Str(locale.value)];
    }
    if timeout > 0 {
      o := o[WinrmTimeout := Str(TimeoutText(timeout))];
    }
  }
}
