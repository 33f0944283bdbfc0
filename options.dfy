/**
 * Overthere's ConnectionOptions as a map from option name to value. The names are those of the
 * library's constants used by the task.
 */
module Options {
  import opened Wrappers

  datatype Value =
    | Str(s: string)        // a string option
    | Null                  // a null set by the task (an unset username or password)
    | Family(name: string)  // an OperatingSystemFamily constant
    | Tunnel                // SshConnectionType.TUNNEL
    | WinRm                 // CifsConnectionType.WINRM

  type Options = map<string, Value>

  const Address := "address"                       // ConnectionOptions.ADDRESS
  const Username := "username"                     // ConnectionOptions.USERNAME
  const Password := "password"                     // ConnectionOptions.PASSWORD
  const OperatingSystem := "os"                    // ConnectionOptions.OPERATING_SYSTEM
  const ConnectionType := "connectionType"         // CONNECTION_TYPE of both connection builders
  const WinrmEnableHttps := "winrmEnableHttps"     // CifsConnectionBuilder.WINRM_ENABLE_HTTPS
  const WinrmTrustStrategy := "winrmHttpsCertificateTrustStrategy"
  const WinrmLocale := "winrmLocale"               // CifsConnectionBuilder.WINRM_LOCALE
  const WinrmTimeout := "winrmTimeout"             // CifsConnectionBuilder.WINRM_TIMEMOUT

  function StrOrNull(s: Option<string>): Value
  {
    if s.Some? then Str(s.value) else Null
  }
}
