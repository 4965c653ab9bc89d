/**
 * What the skill sees of its host runtime: setting values as the settings
 * service hands them over, and the observable effects the skill causes
 * (calls into the vendor client, dialogs, audio playback, prompts).
 * Every operation of the model returns its effects as a trace.
 */
module Host {
  import opened Wrappers

  /** A value stored in the skill's settings. */
  datatype Setting = Text(text: string) | Flag(flag: bool)

  /** Python truthiness of an optional setting: a missing setting, empty text
      and `false` are falsy, everything else is truthy. */
  predicate Truthy(s: Option<Setting>) {
    match s
    case None => false
    case Some(Text(t)) => |t| > 0
    case Some(Flag(b)) => b
  }

  /** The OAuth token kept in the cache file; its contents are opaque here. */
  type Token = string

  /** The data substituted into a dialog template. */
  datatype DialogData = NoData | DeviceField(device: string) | TotalField(total: nat)

  /** One observable step of the skill, in the order it happens. */
  datatype Effect =
    | NewAuth(cachedToken: Option<Token>)                        // constructs the vendor auth client
    | FetchToken(username: Setting, password: Setting, otp: Option<Setting>)
    | UpdateData                                                 // vendor client refreshes account data
    | ListDevices                                                // vendor client returns its device lists
    | UpdateDevices                                              // vendor client refreshes device data
    | UpdateDings                                                // vendor client refreshes its alerts
    | ActiveAlerts                                               // vendor client returns its alert list
    | PlaySound(file: string)                                    // plays an audio file to completion
    | SpeakDialog(key: string, data: DialogData)
    | AskYesNo(key: string)
    | Speak(utterance: string)

  predicate IsFetch(e: Effect) { e.FetchToken? }
  predicate IsDialog(e: Effect) { e.SpeakDialog? }
  predicate IsSound(e: Effect) { e.PlaySound? }

  /** Number of effects in the trace that satisfy `p`. */
  function Count(effects: seq<Effect>, p: Effect -> bool): (n: nat)
    ensures n <= |effects|
    ensures n == 0 <==> forall i :: 0 <= i < |effects| ==> !p(effects[i])
  {
    if effects == [] then 0
    else (if p(effects[0]) then 1 else 0) + Count(effects[1..], p)
  }

  /** Counting distributes over concatenation of traces. */
  lemma {:induction false} CountAppend(a: seq<Effect>, b: seq<Effect>, p: Effect -> bool)
    ensures Count(a + b, p) == Count(a, p) + Count(b, p)
  {
    if a == [] {
      assert a + b == b;
    } else {
      assert (a + b)[1..] == a[1..] + b;
      CountAppend(a[1..], b, p);
    }
  }
}
