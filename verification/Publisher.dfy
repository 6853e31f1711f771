/** scripts/publish-app.js: app ids derived from names, and the drive and encryption keys kept across runs. */
module Publisher {
  import opened Wrappers
  import opened Texts

  // ---------------------------------------------------------------- deriveAppId

  /** toLowerCase, as far as the result can matter: besides A-Z, the Kelvin sign becomes "k" and the
      capital dotted I becomes "i" and a combining dot; nothing else outside ASCII lower-cases into it. */
  function LowerUnit(u: Unit): Text {
    if 65 <= u <= 90 then [u + 32]
    else if u == 0x212A then [107]
    else if u == 0x130 then [105, 0x307]
    else [u]
  }

  function Lower(t: Text): Text {
    if t == [] then [] else Lower(t[..|t| - 1]) + LowerUnit(t[|t| - 1])
  }

  predicate IsWord(u: Unit) {
    97 <= u <= 122 || IsDigit(u)
  }

  predicate EndsInDash(t: Text) {
    t != [] && t[|t| - 1] == MINUS
  }

  /** replace(/[^a-z0-9]+/g, '-') */
  function Collapse(t: Text): Text {
    if t == [] then []
    else
      var front := Collapse(t[..|t| - 1]);
      var u := t[|t| - 1];
      if IsWord(u) then front + [u] else if EndsInDash(front) then front else front + [MINUS]
  }

  /** replace(/^-|-$/g, '') */
  function Trim(t: Text): Text {
    var s := if t != [] && t[0] == MINUS then t[1..] else t;
    if EndsInDash(s) then s[..|s| - 1] else s
  }

  function DeriveAppId(name: Text): Text {
    Trim(Collapse(Lower(name)))
  }

  /** Words joined by single dashes. */
  predicate Dashed(t: Text) {
    && (forall i | 0 <= i < |t| :: IsWord(t[i]) || t[i] == MINUS)
    && (forall i | 0 <= i < |t| - 1 :: t[i] != MINUS || t[i + 1] != MINUS)
  }

  predicate Normal(t: Text) {
    Dashed(t) && (t != [] ==> t[0] != MINUS && t[|t| - 1] != MINUS)
  }

  lemma {:induction false} CollapseDashed(t: Text)
    ensures Dashed(Collapse(t))
  {
    if t != [] {
      CollapseDashed(t[..|t| - 1]);
    }
  }

  lemma TrimNormal(t: Text)
    requires Dashed(t)
    ensures Normal(Trim(t))
  {
    var s := if t != [] && t[0] == MINUS then t[1..] else t;
    if t != [] && t[0] == MINUS {
      assert forall i | 0 <= i < |s| :: s[i] == t[i + 1];
      assert |t| > 1 ==> t[0] != MINUS || t[0 + 1] != MINUS;
    }
    if EndsInDash(s) && |s| > 1 {
      assert s[|s| - 2 + 1] == MINUS;
      assert s[|s| - 2] != MINUS;
    }
  }

  lemma {:induction false} LowerDashed(t: Text)
    requires Dashed(t)
    ensures Lower(t) == t
  {
    if t != [] {
      LowerDashed(t[..|t| - 1]);
      assert t == t[..|t| - 1] + [t[|t| - 1]];
    }
  }

  lemma {:induction false} CollapseFixed(t: Text)
    requires Dashed(t)
    ensures Collapse(t) == t
  {
    if t != [] {
      var front := t[..|t| - 1];
      CollapseFixed(front);
      assert t == front + [t[|t| - 1]];
      if front != [] {
        assert t[|t| - 2] != MINUS || t[|t| - 2 + 1] != MINUS;
      }
    }
  }

  /** Derived ids are normal, and exactly the normal texts are their own derived id; so deriving twice changes nothing. */
  lemma DeriveFixed(t: Text)
    ensures Normal(DeriveAppId(t))
    ensures DeriveAppId(t) == t <==> Normal(t)
    ensures DeriveAppId(DeriveAppId(t)) == DeriveAppId(t)
  {
    CollapseDashed(Lower(t));
    TrimNormal(Collapse(Lower(t)));
    var d := DeriveAppId(t);
    LowerDashed(d);
    CollapseFixed(d);
    if Normal(t) {
      LowerDashed(t);
      CollapseFixed(t);
    }
  }

  /** The letters and digits of a text. */
  function Words(t: Text): Text {
    if t == [] then [] else Words(t[..|t| - 1]) + if IsWord(t[|t| - 1]) then [t[|t| - 1]] else []
  }

  lemma WordsSnoc(t: Text, u: Unit)
    ensures Words(t + [u]) == Words(t) + if IsWord(u) then [u] else []
  {
    assert (t + [u])[..|t|] == t;
  }

  lemma {:induction false} CollapseKeepsWords(t: Text)
    ensures Words(Collapse(t)) == Words(t)
  {
    if t != [] {
      var front, u := Collapse(t[..|t| - 1]), t[|t| - 1];
      CollapseKeepsWords(t[..|t| - 1]);
      WordsSnoc(front, u);
      WordsSnoc(front, MINUS);
    }
  }

  lemma {:induction false} WordsAfterDash(t: Text)
    requires t != [] && t[0] == MINUS
    ensures Words(t[1..]) == Words(t)
  {
    var n := |t| - 1;
    if n > 0 {
      WordsAfterDash(t[..n]);
      assert t[1..][..n - 1] == t[..n][1..];
    } else {
      assert t[..0] == [];
    }
  }

  lemma TrimKeepsWords(t: Text)
    ensures Words(Trim(t)) == Words(t)
  {
    var s := if t != [] && t[0] == MINUS then t[1..] else t;
    if t != [] && t[0] == MINUS {
      WordsAfterDash(t);
    }
  }

  /** The letters and digits of a name survive in its id, in lower case and in order ... */
  lemma WordsSurvive(name: Text)
    ensures Words(DeriveAppId(name)) == Words(Lower(name))
  {
    CollapseKeepsWords(Lower(name));
    TrimKeepsWords(Collapse(Lower(name)));
  }

  ghost predicate SameLetter(u: Unit, v: Unit) {
    u == v || (65 <= u <= 90 && v == u + 32) || (65 <= v <= 90 && u == v + 32)
  }

  ghost predicate SameUpToCase(t: Text, s: Text) {
    |t| == |s| && forall i | 0 <= i < |t| :: SameLetter(t[i], s[i])
  }

  lemma {:induction false} LowerIgnoresCase(t: Text, s: Text)
    requires SameUpToCase(t, s)
    ensures Lower(t) == Lower(s)
  {
    if t != [] {
      LowerIgnoresCase(t[..|t| - 1], s[..|s| - 1]);
    }
  }

  /** ... names that differ only in letter case share one id, and capitals become the small letters. */
  lemma CaseIgnored(t: Text, s: Text)
    requires SameUpToCase(t, s)
    ensures DeriveAppId(t) == DeriveAppId(s)
  {
    LowerIgnoresCase(t, s);
  }

  lemma CapitalAt(i: nat)
    requires i < 26
    ensures Ascii("ABCDEFGHIJKLMNOPQRSTUVWXYZ")[i] == 65 + i
  {
  }

  lemma SmallAt(i: nat)
    requires i < 26
    ensures Ascii("abcdefghijklmnopqrstuvwxyz")[i] == 97 + i
  {
  }

  lemma KnownLetter(i: nat)
    requires i < 26
    ensures LowerUnit(Ascii("ABCDEFGHIJKLMNOPQRSTUVWXYZ")[i]) == [Ascii("abcdefghijklmnopqrstuvwxyz")[i]]
    ensures LowerUnit(0x212A) == Ascii("k") && LowerUnit(0x130) == Ascii("i") + [0x307]
  {
    CapitalAt(i);
    SmallAt(i);
  }

  lemma DigitUnitAt(i: nat)
    requires i < 10
    ensures Ascii("0123456789")[i] == 48 + i
  {
  }

  /** The units of a word are the small letters and the digits. */
  lemma WordsAre(u: Unit)
    ensures IsWord(u) <==> u in Ascii("abcdefghijklmnopqrstuvwxyz") || u in Ascii("0123456789")
  {
    LettersAre(u);
    DigitsAre(u);
  }

  lemma LettersAre(u: Unit)
    ensures 97 <= u <= 122 <==> u in Ascii("abcdefghijklmnopqrstuvwxyz")
  {
    if 97 <= u <= 122 {
      SmallAt(u - 97);
    }
    if u in Ascii("abcdefghijklmnopqrstuvwxyz") {
      var i :| 0 <= i < 26 && Ascii("abcdefghijklmnopqrstuvwxyz")[i] == u;
      SmallAt(i);
    }
  }

  lemma DigitsAre(u: Unit)
    ensures 48 <= u <= 57 <==> u in Ascii("0123456789")
  {
    if 48 <= u <= 57 {
      DigitUnitAt(u - 48);
    }
    if u in Ascii("0123456789") {
      var i :| 0 <= i < 10 && Ascii("0123456789")[i] == u;
      DigitUnitAt(i);
    }
  }

  predicate AllWord(t: Text) {
    forall i | 0 <= i < |t| :: IsWord(t[i])
  }

  lemma CollapseSnoc(t: Text, u: Unit)
    ensures Collapse(t + [u]) ==
            if IsWord(u) then Collapse(t) + [u] else if EndsInDash(Collapse(t)) then Collapse(t) else Collapse(t) + [MINUS]
  {
    assert (t + [u])[..|t|] == t;
  }

  lemma {:induction false} CollapseWord(t: Text, w: Text)
    requires AllWord(w)
    ensures Collapse(t + w) == Collapse(t) + w
  {
    if w == [] {
      assert t + w == t && Collapse(t) + w == Collapse(t);
    } else {
      var front, u := w[..|w| - 1], w[|w| - 1];
      CollapseWord(t, front);
      CollapseSnoc(t + front, u);
      assert t + w == (t + front) + [u] && Collapse(t) + w == (Collapse(t) + front) + [u];
    }
  }

  lemma {:induction false} CollapseSeparator(t: Text, s: Text)
    requires t != [] && IsWord(t[|t| - 1]) && s != [] && forall i | 0 <= i < |s| :: !IsWord(s[i])
    ensures Collapse(t + s) == Collapse(t) + [MINUS]
  {
    var front, u := s[..|s| - 1], s[|s| - 1];
    CollapseSnoc(t + front, u);
    assert t + s == (t + front) + [u];
    if front == [] {
      assert t + front == t;
      CollapseSnoc(t[..|t| - 1], t[|t| - 1]);
      assert t == t[..|t| - 1] + [t[|t| - 1]];
    } else {
      CollapseSeparator(t, front);
    }
  }

  /** Whatever stands between two words becomes one dash. */
  lemma DashBetween(a: Text, s: Text, b: Text)
    requires AllWord(a) && AllWord(b) && a != [] && b != [] && s != [] && forall i | 0 <= i < |s| :: !IsWord(s[i])
    ensures Collapse(a + s + b) == a + [MINUS] + b
  {
    CollapseWord(a + s, b);
    CollapseSeparator(a, s);
    CollapseWord([], a);
    assert [] + a == a;
  }

  // ---------------------------------------------------------------- hex keys

  /** How much of a text Buffer.from(text, 'hex') decodes. */
  function HexPrefix(t: Text): (n: nat)
    ensures n <= |t|
    ensures forall i | 0 <= i < n :: IsHexUnit(t[i])
  {
    if |t| >= 2 && IsHexUnit(t[0]) && IsHexUnit(t[1]) then 2 + HexPrefix(t[2..]) else 0
  }

  /** The hex form of drive.key after opening a drive by key; None when that is not 32 bytes. */
  function Opened(key: Text): Option<Text> {
    if HexPrefix(key) == 64 then Some(seq(64, i requires 0 <= i < 64 => LowerHexUnit(key[i]))) else None
  }

  /** A key as drives report it: 64 lower-case hex digits. */
  predicate IsDriveKey(t: Text) {
    |t| == 64 && forall i | 0 <= i < 64 :: IsLowerHexUnit(t[i])
  }

  lemma {:induction false} HexPrefixAll(t: Text)
    requires |t| % 2 == 0 && forall i | 0 <= i < |t| :: IsHexUnit(t[i])
    ensures HexPrefix(t) == |t|
  {
    if t != [] {
      HexPrefixAll(t[2..]);
    }
  }

  lemma OpenedIsDriveKey(key: Text)
    ensures Opened(key).Some? ==> IsDriveKey(Opened(key).value)
    ensures IsDriveKey(key) ==> Opened(key) == Some(key)
  {
    if IsDriveKey(key) {
      HexPrefixAll(key);
      assert Opened(key).value == key;
    }
  }

  /** `n` units of hex digits, and no further pair of them. */
  predicate HexEnd(t: Text, n: nat) {
    n % 2 == 0 && n <= |t| && (forall i | 0 <= i < n :: IsHexUnit(t[i])) &&
    (n + 2 <= |t| ==> !IsHexUnit(t[n]) || !IsHexUnit(t[n + 1]))
  }

  lemma {:induction false} HexPrefixEnds(t: Text)
    ensures HexEnd(t, HexPrefix(t))
  {
    if |t| >= 2 && IsHexUnit(t[0]) && IsHexUnit(t[1]) {
      HexPrefixEnds(t[2..]);
      var n := HexPrefix(t[2..]);
      forall i | 0 <= i < n + 2 ensures IsHexUnit(t[i]) {
        assert i >= 2 ==> t[i] == t[2..][i - 2];
      }
      if n + 4 <= |t| {
        assert t[n + 2] == t[2..][n] && t[n + 3] == t[2..][n + 1];
      }
    }
  }

  lemma HexEndUnique(t: Text, m: nat, n: nat)
    requires HexEnd(t, m) && HexEnd(t, n)
    ensures m == n
  {
  }

  /** A text opens a drive exactly when it starts with 32 bytes in hex and not with 33; the key reported has them in
      lower case. */
  lemma OpenedIff(key: Text)
    ensures Opened(key).Some? <==> HexEnd(key, 64)
    ensures Opened(key).Some? ==>
              |Opened(key).value| == 64 && forall i | 0 <= i < 64 :: Opened(key).value[i] == LowerHexUnit(key[i])
  {
    HexPrefixEnds(key);
    if HexEnd(key, 64) {
      HexEndUnique(key, HexPrefix(key), 64);
    }
  }

  // ---------------------------------------------------------------- one run

  /** app-drives.json and encryption-keys.json. */
  datatype Store = Store(drives: map<Text, Text>, secrets: map<Text, Text>)

  datatype Options = Options(id: Text, name: Text, key: Text, blind: bool, encryptionKey: Text)

  /** What the run meets outside: a relay's answer (empty when none), the keys freshly generated, and the
      property names that every JavaScript object inherits. */
  datatype Env = Env(resolved: Text, freshDrive: Text, freshSecret: Text, inherited: set<Text>)
  {
    predicate Valid() {
      IsDriveKey(freshDrive) && freshSecret != []
    }
  }

  datatype Outcome = Published(store: Store, driveKey: Text) | Crashed(store: Store)

  const DEFAULT_ID: Text := [95, 100, 101, 102, 97, 117, 108, 116]

  /** opts.id || (opts.name ? deriveAppId(opts.name) : null), with [] for none. */
  function AppId(o: Options): Text {
    if o.id != [] then o.id else if o.name != [] then DeriveAppId(o.name) else []
  }

  datatype Lookup = Missing | Own(value: Text) | InheritedValue

  /** obj[id], told apart by truthiness. */
  function LookUp(m: map<Text, Text>, id: Text, env: Env): Lookup {
    if id in m then if m[id] != [] then Own(m[id]) else Missing
    else if id in env.inherited then InheritedValue
    else Missing
  }

  function SecretId(o: Options): Text {
    if AppId(o) != [] then AppId(o) else DEFAULT_ID
  }

  /** loadOrCreateEncryptionKey, when a blind run was given no key; None when it throws. */
  function WithSecret(s: Store, o: Options, env: Env): Option<Store> {
    if !o.blind || o.encryptionKey != [] then Some(s)
    else
      match LookUp(s.secrets, SecretId(o), env)
      case Own(_) => Some(s)
      case Missing => Some(s.(secrets := s.secrets[SecretId(o) := env.freshSecret]))
      case InheritedValue => None
  }

  datatype Resolution = Drive(store: Store, key: Text) | NoDrive(store: Store)

  function OpenDrive(s: Store, key: Text, after: Store): Resolution {
    if Opened(key).Some? then Drive(after, Opened(key).value) else NoDrive(s)
  }

  /** Explicit key, saved mapping, relay registry, new drive, in that order. */
  function Resolve(s: Store, o: Options, env: Env): Resolution {
    var id := AppId(o);
    if o.key != [] then OpenDrive(s, o.key, s)
    else if id == [] then Drive(s, env.freshDrive)
    else
      match LookUp(s.drives, id, env)
      case Own(key) => OpenDrive(s, key, s)
      case InheritedValue => NoDrive(s)
      case Missing =>
        if (!o.blind || o.encryptionKey != []) && env.resolved != [] then
          OpenDrive(s, env.resolved, s.(drives := s.drives[id := env.resolved]))
        else Drive(s, env.freshDrive)
  }

  function Publish(s: Store, o: Options, env: Env): Outcome {
    var id := AppId(o);
    var withSecret := WithSecret(s, o, env);
    if withSecret.None? then Crashed(s)
    else
      match Resolve(withSecret.value, o, env)
      case NoDrive(after) => Crashed(after)
      case Drive(after, key) =>
        Published(if id == [] then after else after.(drives := after.drives[id := key]), key)
  }

  // ---------------------------------------------------------------- across runs

  ghost predicate KeysReported(s: Store) {
    forall id | id in s.drives :: IsDriveKey(s.drives[id])
  }

  /** `t` has every drive of `s` but perhaps the one under `id`, and no other new one. */
  ghost predicate DrivesKept(s: map<Text, Text>, t: map<Text, Text>, id: Text, rekeyed: bool) {
    && (forall k | k in s && (k != id || !rekeyed) :: k in t && t[k] == s[k])
    && (forall k | k in t && k !in s :: k == id && id != [])
  }

  /** `t` has every secret of `s`, and at most one more, under `id`. */
  ghost predicate SecretsKept(s: map<Text, Text>, t: map<Text, Text>, id: Text) {
    && (forall k | k in s && s[k] != [] :: k in t && t[k] == s[k])
    && (forall k | k in t && k !in s :: k == id)
  }

  lemma SecretStep(s: Store, o: Options, env: Env)
    requires WithSecret(s, o, env).Some?
    ensures WithSecret(s, o, env).value.drives == s.drives
    ensures SecretsKept(s.secrets, WithSecret(s, o, env).value.secrets, SecretId(o))
  {
  }

  lemma ResolveStep(s: Store, o: Options, env: Env)
    requires KeysReported(s) && env.Valid()
    ensures var r := Resolve(s, o, env);
            && r.store.secrets == s.secrets
            && (r.NoDrive? ==> r.store == s)
            && (r.Drive? ==>
                  && IsDriveKey(r.key)
                  && DrivesKept(s.drives, r.store.drives, AppId(o), false)
                  && (forall k | k in r.store.drives && k != AppId(o) :: k in s.drives)
                  && (AppId(o) in s.drives && o.key == [] && AppId(o) != [] ==> r.key == s.drives[AppId(o)]))
  {
    OpenedIsDriveKey(o.key);
    OpenedIsDriveKey(env.resolved);
    if AppId(o) in s.drives {
      OpenedIsDriveKey(s.drives[AppId(o)]);
    }
  }

  /** One run leaves every mapped drive alone but its own under --key, and every saved secret alone. */
  lemma RunKeeps(s: Store, o: Options, env: Env)
    requires KeysReported(s) && env.Valid()
    ensures var t := Publish(s, o, env).store;
            && KeysReported(t)
            && DrivesKept(s.drives, t.drives, AppId(o), o.key != [])
            && SecretsKept(s.secrets, t.secrets, SecretId(o))
  {
    var w := WithSecret(s, o, env);
    if w.Some? {
      SecretStep(s, o, env);
      ResolveStep(w.value, o, env);
    }
  }

  /** A published run reports the key it leaves in the map. */
  lemma RunReports(s: Store, o: Options, env: Env)
    requires KeysReported(s) && env.Valid()
    ensures var r := Publish(s, o, env);
            r.Published? && AppId(o) != [] ==> AppId(o) in r.store.drives && r.store.drives[AppId(o)] == r.driveKey
  {
  }

  /** Where the drive key of a published run comes from: --key first, then the saved mapping, then a relay's
      registry, then a new drive; a blind run without its encryption key never adopts a relay's answer. */
  lemma Precedence(s: Store, o: Options, env: Env)
    requires KeysReported(s) && env.Valid() && Publish(s, o, env).Published?
    ensures var key, id := Publish(s, o, env).driveKey, AppId(o);
            if o.key != [] then Opened(o.key) == Some(key)
            else if id != [] && id in s.drives then key == s.drives[id]
            else if id != [] && env.resolved != [] && !(o.blind && o.encryptionKey == []) then Opened(env.resolved) == Some(key)
            else key == env.freshDrive
  {
    if AppId(o) in s.drives {
      OpenedIsDriveKey(s.drives[AppId(o)]);
    }
  }

  datatype Run = Run(options: Options, env: Env)

  function After(s: Store, runs: seq<Run>): Store {
    if runs == [] then s
    else Publish(After(s, runs[..|runs| - 1]), runs[|runs| - 1].options, runs[|runs| - 1].env).store
  }

  ghost predicate Ordinary(runs: seq<Run>) {
    forall i | 0 <= i < |runs| :: runs[i].env.Valid()
  }

  /** Over any sequence of publishes with an intact store: once mapped, an id keeps its drive key
      unless a run for that id is given --key ... */
  lemma {:induction false} KeysStable(s: Store, runs: seq<Run>, id: Text)
    requires KeysReported(s) && Ordinary(runs)
    requires forall i | 0 <= i < |runs| :: AppId(runs[i].options) == id ==> runs[i].options.key == []
    ensures KeysReported(After(s, runs))
    ensures id in s.drives ==> id in After(s, runs).drives && After(s, runs).drives[id] == s.drives[id]
  {
    if runs != [] {
      var front, last := runs[..|runs| - 1], runs[|runs| - 1];
      KeysStable(s, front, id);
      RunKeeps(After(s, front), last.options, last.env);
    }
  }

  lemma RunKeepsSecrets(s: Store, o: Options, env: Env)
    ensures SecretsKept(s.secrets, Publish(s, o, env).store.secrets, SecretId(o))
  {
    if WithSecret(s, o, env).Some? {
      SecretStep(s, o, env);
    }
  }

  /** ... and a saved secret never changes, whatever the runs, whatever is in the store, with or without --key. */
  lemma {:induction false} SecretsStable(s: Store, runs: seq<Run>, id: Text)
    requires id in s.secrets && s.secrets[id] != []
    ensures id in After(s, runs).secrets && After(s, runs).secrets[id] == s.secrets[id]
  {
    if runs != [] {
      var front, last := runs[..|runs| - 1], runs[|runs| - 1];
      SecretsStable(s, front, id);
      RunKeepsSecrets(After(s, front), last.options, last.env);
    }
  }

  /** The id a run stores its secret under: --id, else the one derived from --name, else "_default". */
  lemma SecretIdIs(o: Options)
    ensures o.id != [] ==> AppId(o) == SecretId(o) == o.id
    ensures o.id == [] && o.name != [] && DeriveAppId(o.name) != [] ==> AppId(o) == SecretId(o) == DeriveAppId(o.name)
    ensures AppId(o) == [] ==> SecretId(o) == Ascii("_default")
  {
  }

  /** A blind run that is given no encryption key and does not crash leaves a secret under its id: the one saved before,
      or else the fresh one. */
  lemma BlindRunSaves(s: Store, o: Options, env: Env)
    requires o.blind && o.encryptionKey == [] && env.freshSecret != [] && Publish(s, o, env).Published?
    ensures var id, t := (if AppId(o) != [] then AppId(o) else Ascii("_default")), Publish(s, o, env).store;
            && id in t.secrets && t.secrets[id] != []
            && t.secrets[id] == (if id in s.secrets && s.secrets[id] != [] then s.secrets[id] else env.freshSecret)
            && forall k | k in t.secrets && k != id :: k in s.secrets && t.secrets[k] == s.secrets[k]
  {
    SecretIdIs(o);
  }

  /** A further blind run of the same id leaves the secrets as they are ... */
  lemma BlindRunReuses(s: Store, first: Run, second: Run)
    requires first.options.blind && first.options.encryptionKey == [] && first.env.freshSecret != []
    requires second.options.blind && second.options.encryptionKey == [] && AppId(first.options) == AppId(second.options)
    requires Publish(s, first.options, first.env).Published?
    ensures var t := Publish(s, first.options, first.env).store; Publish(t, second.options, second.env).store.secrets == t.secrets
  {
    BlindRunSaves(s, first.options, first.env);
  }

  /** ... and so does any run that is not blind or is given its key. */
  lemma OtherRunsKeepSecrets(s: Store, o: Options, env: Env)
    requires !o.blind || o.encryptionKey != []
    ensures Publish(s, o, env).store.secrets == s.secrets
  {
  }

  // ---------------------------------------------------------------- runs that crash

  /** The run asks a relay for the drive of its id. */
  predicate AsksRelay(s: Store, o: Options) {
    o.key == [] && AppId(o) != [] && AppId(o) !in s.drives && (!o.blind || o.encryptionKey != [])
  }

  /** A run crashes exactly when it needs a secret under an inherited name, is given a --key that is no key, has an
      unmapped inherited name as its id, or adopts an answer that is no key. */
  lemma CrashIff(s: Store, o: Options, env: Env)
    requires KeysReported(s)
    ensures Publish(s, o, env).Crashed? <==>
            || (o.blind && o.encryptionKey == [] && SecretId(o) in env.inherited && SecretId(o) !in s.secrets)
            || (o.key != [] && Opened(o.key).None?)
            || (o.key == [] && AppId(o) != [] && AppId(o) in env.inherited && AppId(o) !in s.drives)
            || (AsksRelay(s, o) && env.resolved != [] && Opened(env.resolved).None?)
  {
    if AppId(o) in s.drives {
      OpenedIsDriveKey(s.drives[AppId(o)]);
    }
  }

  const CONSTRUCTOR: Text := [99, 111, 110, 115, 116, 114, 117, 99, 116, 111, 114]

  lemma ConstructorSpelled()
    ensures CONSTRUCTOR == Ascii("constructor")
  {
  }

  /** The first publish of an app called "constructor" crashes, and so does every one after it ... */
  lemma ConstructorCrashes(env: Env)
    requires CONSTRUCTOR in env.inherited
    ensures Publish(Store(map[], map[]), Options([], CONSTRUCTOR, [], false, []), env) == Crashed(Store(map[], map[]))
  {
    assert Normal(CONSTRUCTOR);
    DeriveFixed(CONSTRUCTOR);
    CrashIff(Store(map[], map[]), Options([], CONSTRUCTOR, [], false, []), env);
  }

  /** ... because without --key no sequence of runs ever maps an inherited name: each of its runs crashes. */
  lemma {:induction false} InheritedNeverMapped(s: Store, runs: seq<Run>, id: Text)
    requires KeysReported(s) && Ordinary(runs) && id != [] && id !in s.drives
    requires forall i | 0 <= i < |runs| :: id in runs[i].env.inherited
    requires forall i | 0 <= i < |runs| :: AppId(runs[i].options) == id ==> runs[i].options.key == []
    ensures id !in After(s, runs).drives
    ensures runs != [] && AppId(runs[|runs| - 1].options) == id ==>
              var last := runs[|runs| - 1]; Publish(After(s, runs[..|runs| - 1]), last.options, last.env).Crashed?
  {
    if runs != [] {
      var front, last := runs[..|runs| - 1], runs[|runs| - 1];
      InheritedNeverMapped(s, front, id);
      KeysStable(s, front, id);
      RunKeeps(After(s, front), last.options, last.env);
      CrashIff(After(s, front), last.options, last.env);
    }
  }

  /** So names with the same normal form share one drive: publish under one, then anything else without
      --key for that id, then under the other, and the drive key is the same. */
  lemma SameNormalFormSameDrive(s: Store, first: Run, between: seq<Run>, second: Run)
    requires KeysReported(s) && first.env.Valid() && second.env.Valid() && Ordinary(between)
    requires first.options.id == second.options.id == [] && first.options.name != [] && second.options.name != []
    requires DeriveAppId(first.options.name) == DeriveAppId(second.options.name) != []
    requires second.options.key == []
    requires forall i | 0 <= i < |between| :: AppId(between[i].options) == AppId(first.options) ==> between[i].options.key == []
    requires Publish(s, first.options, first.env).Published?
    ensures var published := Publish(s, first.options, first.env);
            var r := Publish(After(published.store, between), second.options, second.env);
            r.Published? ==> r.driveKey == published.driveKey
  {
    var published := Publish(s, first.options, first.env);
    var id := AppId(first.options);
    RunKeeps(s, first.options, first.env);
    RunReports(s, first.options, first.env);
    KeysStable(published.store, between, id);
    var t := After(published.store, between);
    if Publish(t, second.options, second.env).Published? {
      Precedence(t, second.options, second.env);
    }
  }

  // ---------------------------------------------------------------- the storage directory

  class Storage {
    var drives: map<Text, Text>
    var secrets: map<Text, Text>

    ghost function Value(): Store
      reads this
    {
      Store(drives, secrets)
    }

    method LoadOrCreateEncryptionKey(o: Options, env: Env) returns (ok: bool)
      requires o.blind && o.encryptionKey == []
      modifies this`secrets
      ensures ok == WithSecret(old(Value()), o, env).Some?
      ensures Value() == if ok then WithSecret(old(Value()), o, env).value else old(Value())
    {
      var id := if AppId(o) != [] then AppId(o) else DEFAULT_ID;
      match LookUp(secrets, id, env)
      case Own(_) => ok := true;
      case InheritedValue => ok := false;
      case Missing =>
        secrets := secrets[id := env.freshSecret];
        ok := true;
    }

    method RunPublish(o: Options, env: Env) returns (driveKey: Option<Text>)
      modifies this
      ensures match Publish(old(Value()), o, env)
              case Published(store, key) => Value() == store && driveKey == Some(key)
              case Crashed(store) => Value() == store && driveKey == None
    {
      var id := AppId(o);
      if o.blind && o.encryptionKey == [] {
        var ok := LoadOrCreateEncryptionKey(o, env);
        if !ok { return None; }
      }
      if o.key != [] {
        driveKey := Opened(o.key);
        if driveKey.None? { return; }
      } else if id != [] {
        match LookUp(drives, id, env) {
          case Own(key) =>
            driveKey := Opened(key);
            if driveKey.None? { return; }
          case InheritedValue => return None;
          case Missing =>
            if (!o.blind || o.encryptionKey != []) && env.resolved != [] {
              driveKey := Opened(env.resolved);
              if driveKey.None? { return; }
              drives := drives[id := env.resolved];
            } else {
              driveKey := Some(env.freshDrive);
            }
        }
      } else {
        driveKey := Some(env.freshDrive);
      }
      if id != [] {
        drives := drives[id := driveKey.value];
      }
    }
  }
}
