/** The skill configuration read from the host's settings (`_setup`). */
module Config {
  import opened Wrappers
  import opened Host

  /** Sound file played for a doorbell press when the user has not chosen one. */
  const DefaultDingSound: string := "doorbell_1.mp3"

  /** The settings keys the skill reads. */
  const SkillKeys: set<string> :=
    {"username", "password", "2fa_enabled", "2fa_code", "ding_sound",
     "enable_ding", "enable_motion", "enable_on_demand"}

  /** The configuration fields; every field but the ding sound may be absent. */
  datatype Config = Config(
    username: Option<Setting>,
    password: Option<Setting>,
    twoFactorEnabled: Option<Setting>,
    twoFactorCode: Option<Setting>,
    dingSound: Setting,
    dingAlerts: Option<Setting>,
    motionAlerts: Option<Setting>,
    onDemandAlerts: Option<Setting>)

  /** Python's `dict.get(key)`: the stored value, or `None` for a missing key. */
  function Get(settings: map<string, Setting>, key: string): (v: Option<Setting>)
    ensures v.Some? <==> key in settings
    ensures v.Some? ==> v.value == settings[key]
  {
    if key in settings then Some(settings[key]) else None
  }

  /** Reads the configuration from the settings; only the ding sound has a default,
      and a present setting is taken as it is, even when it is empty. */
  function Setup(settings: map<string, Setting>): (c: Config)
    ensures "ding_sound" !in settings ==> c.dingSound == Text(DefaultDingSound)
    ensures "ding_sound" in settings ==> c.dingSound == settings["ding_sound"]
    ensures c.username == Get(settings, "username")
    ensures c.password == Get(settings, "password")
    ensures c.twoFactorEnabled == Get(settings, "2fa_enabled")
    ensures c.twoFactorCode == Get(settings, "2fa_code")
    ensures c.dingAlerts == Get(settings, "enable_ding")
    ensures c.motionAlerts == Get(settings, "enable_motion")
    ensures c.onDemandAlerts == Get(settings, "enable_on_demand")
  {
    Config(
      Get(settings, "username"),
      Get(settings, "password"),
      Get(settings, "2fa_enabled"),
      Get(settings, "2fa_code"),
      if "ding_sound" in settings then settings["ding_sound"] else Text(DefaultDingSound),
      Get(settings, "enable_ding"),
      Get(settings, "enable_motion"),
      Get(settings, "enable_on_demand"))
  }

  /** The configuration depends on the eight skill keys only: two settings
      maps that agree on them give the same configuration. */
  lemma SetupReadsOnlySkillKeys(s1: map<string, Setting>, s2: map<string, Setting>)
    requires forall k :: k in SkillKeys ==> Get(s1, k) == Get(s2, k)
    ensures Setup(s1) == Setup(s2)
  {
    assert Get(s1, "ding_sound") == Get(s2, "ding_sound");
  }
}
