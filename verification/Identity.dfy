/**
 Who a server is and whom a client dials: url parsing (src/keys.cpp), key derivation and the reported url
 (src/holesail.cpp), the constructors of server and client, the firewall, and the keys a lookup asks for.
 SHA-256 and keypair-from-seed are arbitrary functions `sha` and `pk` on 32-byte keys; what randomness
 yields is a parameter.
 */
module Identity {
  import opened Common
  import Hex
  import Z32

  type Key = k: Bytes | |k| == 32 witness seq(32, i => 0)

  // ---- urls --------------------------------------------------------------------------------

  const SECURE_URL := "hs://s000"
  const PUBLIC_URL := "hs://0000"

  datatype Parsed = Parsed(key: string, secure: Option<bool>)

  function ParseUrl(url: string): Parsed
  {
    Parsed(
      if |url| >= 9 && url[..5] == "hs://" then url[9..] else url,
      if |url| > 5 && url[5] == 's' then Some(true) else None)
  }

  function MakeUrl(secure: bool, key: string): string
  {
    (if secure then SECURE_URL else PUBLIC_URL) + key
  }

  // ---- derivation --------------------------------------------------------------------------

  datatype Options = Options(server: bool, key: Option<string>, secure: Option<bool>)

  datatype Derived = Derived(secure: bool, key: string, seedHex: string)

  function Or<T>(x: Option<T>, default: T): T { if x.Some? then x.value else default }

  function RandomHex(random: Key): string { Hex.ToHex(random) }

  function Derive(sha: string -> Key, options: Options, random: Key): Derived
  {
    var parsed := ParseUrl(Or(options.key, ""));
    var secure := Or(parsed.secure, Or(options.secure, false));
    if options.server then
      if parsed.key != "" then Derived(secure, parsed.key, HashHex(sha, parsed.key))
      else if secure then Derived(secure, RandomHex(random), HashHex(sha, RandomHex(random)))
      else Derived(secure, "", "")
    else Derived(secure, parsed.key, if secure then HashHex(sha, parsed.key) else "")
  }

  function HashHex(sha: string -> Key, key: string): string { Hex.ToHex(sha(key)) }

  // ---- server ------------------------------------------------------------------------------

  datatype Server = Server(secure: bool, seed: Key, publicKey: Key)

  /** The constructor; `None` is the exception it throws. */
  function NewServer(pk: Key -> Key, seedHex: string, secure: bool, random: Key): Option<Server>
  {
    var bytes := Hex.FromHex(if seedHex == "" then RandomHex(random) else seedHex);
    if bytes == None || |bytes.value| != 32 then None
    else Some(Server(secure, bytes.value, pk(bytes.value)))
  }

  function ServerKey(s: Server): string { Z32.Encode(if s.secure then s.seed else s.publicKey) }

  /** The key and url `info` reports while the server runs. */
  function ReportedKey(d: Derived, s: Server): string
  {
    if d.key != "" && d.secure then d.key else ServerKey(s)
  }

  function ReportedUrl(d: Derived, s: Server): string { MakeUrl(d.secure, ReportedKey(d, s)) }

  /** A peer's public key gets past the handshake. */
  predicate Admits(s: Server, remote: Key) { s.secure ==> remote == s.publicKey }

  // ---- client and lookup -------------------------------------------------------------------

  /** The key dialed, and the public key presented when it is not a throwaway one. */
  datatype Client = Client(target: Key, identity: Option<Key>)

  /** The constructor; `None` is `init_error_`. */
  function NewClient(sha: string -> Key, pk: Key -> Key, d: Derived): Option<Client>
  {
    if d.secure then Some(Client(pk(sha(d.key)), Some(pk(sha(d.key)))))
    else
      match Z32.Decode(d.key)
      case None => None
      case Some(raw) => if |raw| != 32 then None else Some(Client(raw, None))
  }

  /** The client made from a url or a bare key and the `secure` option. */
  function Dial(sha: string -> Key, pk: Key -> Key, key: string, secure: Option<bool>, random: Key): Option<Client>
  {
    NewClient(sha, pk, Derive(sha, Options(false, Some(key), secure), random))
  }

  datatype Arms = Arms(primary: Key, fallback: Key)

  /** The two keys a lookup asks for; `None` is `UV_EINVAL`. */
  function Lookup(sha: string -> Key, pk: Key -> Key, url: string): Option<Arms>
  {
    var parsed := ParseUrl(url);
    var arg := if Or(parsed.secure, false) then Z32.Encode(sha(parsed.key)) else parsed.key;
    match Z32.Decode(arg)
    case None => None
    case Some(raw) => if |raw| != 32 then None else Some(Arms(pk(raw), raw))
  }

  // ---- lemmas ------------------------------------------------------------------------------

  lemma ParsesBack(secure: bool, key: string)
    ensures ParseUrl(MakeUrl(secure, key)) == Parsed(key, if secure then Some(true) else None)
  {
    var head := if secure then SECURE_URL else PUBLIC_URL;
    assert |head| == 9 && head[..5] == "hs://";
    assert (head + key)[..5] == head[..5];
    assert (head + key)[9..] == key;
  }

  /** A made url is nine characters and the key, and is parsed to that key and, exactly when secure, that mode. */
  lemma UrlRoundTrip(secure: bool, key: string)
    ensures MakeUrl(secure, key) == ("hs://" + if secure then "s000" else "0000") + key
    ensures ParseUrl(MakeUrl(secure, key)) == Parsed(key, if secure then Some(true) else None)
  {
    ParsesBack(secure, key);
    assert SECURE_URL == "hs://" + "s000" && PUBLIC_URL == "hs://" + "0000";
  }

  /** Of any text: the protocol and four characters are taken off, whatever the four are; a text without them
      is all key; and it says secure exactly when its sixth character is an `s`, prefix or not. */
  lemma UrlReadExactly(url: string, four: string, key: string)
    ensures |four| == 4 && url == "hs://" + four + key ==> ParseUrl(url).key == key
    ensures (forall f: string, k: string | |f| == 4 :: url != "hs://" + f + k) ==> ParseUrl(url).key == url
    ensures ParseUrl(url).secure == if |url| >= 6 && url[5] == 's' then Some(true) else None
  {
    if |four| == 4 && url == "hs://" + four + key {
      assert url[..5] == "hs://" && url[9..] == key;
    }
    if |url| >= 9 && url[..5] == "hs://" {
      assert url == url[..5] + url[5..9] + url[9..];
    }
  }

  /** Only a seed that is given, and is not 64 hexadecimal digits, makes the constructor throw. */
  lemma ServerThrowsExactly(pk: Key -> Key, seedHex: string, secure: bool, random: Key)
    ensures NewServer(pk, seedHex, secure, random) == None
            <==> seedHex != "" && !(Hex.IsHex(seedHex) && |seedHex| == 64)
  {
    Hex.HexRoundTrip(random);
  }

  /** So it never throws on a derived seed; and the server's key pair comes from the hash of its key. */
  lemma DerivedServer(sha: string -> Key, pk: Key -> Key, options: Options, r1: Key, r2: Key)
    requires options.server
    ensures var d := Derive(sha, options, r1);
            var s := NewServer(pk, d.seedHex, d.secure, r2);
            s == Some(var seed := if d.key == "" then r2 else sha(d.key); Server(d.secure, seed, pk(seed)))
    ensures var d := Derive(sha, options, r1); d.secure ==> d.key != ""
  {
    var d := Derive(sha, options, r1);
    Hex.HexRoundTrip(r2);
    Hex.HexRoundTrip(sha(d.key));
    assert |RandomHex(r1)| == 64 && |HashHex(sha, d.key)| == 64;
  }

  /** What mode and which key the options ask for. */
  predicate AskedSecure(options: Options)
  {
    var url := if options.key.Some? then options.key.value else "";
    (|url| >= 6 && url[5] == 's') || options.secure == Some(true)
  }

  function GivenKey(options: Options): string { ParseUrl(if options.key.Some? then options.key.value else "").key }

  /** The seed in terms of the options alone: the hash of the key given, in either mode, as its characters
      stand; without one, the hash of a random key in secure mode and a random seed in public mode. */
  lemma SeedOfOptions(sha: string -> Key, pk: Key -> Key, options: Options, r1: Key, r2: Key)
    requires options.server
    ensures var d := Derive(sha, options, r1);
            var seed := if GivenKey(options) != "" then sha(GivenKey(options))
                        else if AskedSecure(options) then sha(Hex.ToHex(r1))
                        else r2;
            NewServer(pk, d.seedHex, d.secure, r2) == Some(Server(AskedSecure(options), seed, pk(seed)))
  {
    KeyOfOptions(sha, options, r1);
    DerivedServer(sha, pk, options, r1, r2);
  }

  lemma KeyOfOptions(sha: string -> Key, options: Options, r: Key)
    requires options.server
    ensures var d := Derive(sha, options, r);
            && d.secure == AskedSecure(options)
            && d.key == (if GivenKey(options) != "" then GivenKey(options)
                         else if AskedSecure(options) then Hex.ToHex(r) else "")
  {
  }

  /** And the client: in secure mode it dials, and presents, the key pair of the hash; in public mode it dials
      the 32 bytes its key spells, if it spells 32, with a throwaway key pair. */
  lemma ClientOfOptions(sha: string -> Key, pk: Key -> Key, options: Options, r: Key)
    requires !options.server
    ensures var d, hash := Derive(sha, options, r), sha(GivenKey(options));
            && d.seedHex == (if AskedSecure(options) then Hex.ToHex(hash) else "")
            && NewClient(sha, pk, d) ==
                 if AskedSecure(options) then Some(Client(pk(hash), Some(pk(hash))))
                 else match Z32.Decode(GivenKey(options))
                      case Some(raw) => if |raw| == 32 then Some(Client(raw, None)) else None
                      case None => None
  {
  }

  /** In secure mode, whoever is given what the server was given dials the server and is let in. */
  lemma SharedKeyDials(sha: string -> Key, pk: Key -> Key, options: Options, r1: Key, r2: Key, r3: Key)
    requires options.server && AskedSecure(options) && GivenKey(options) != ""
    ensures var d := Derive(sha, options, r1);
            var made := NewServer(pk, d.seedHex, d.secure, r2);
            && made.Some?
            && var c := Dial(sha, pk, options.key.value, Some(true), r3);
            && c == Some(Client(made.value.publicKey, Some(made.value.publicKey)))
            && Admits(made.value, made.value.publicKey)
  {
    SeedOfOptions(sha, pk, options, r1, r2);
  }

  /** Whatever the server's options, a client deriving from the url it reports dials exactly its public key,
      unless `secure` is forced on a public server's client; the server lets that client in, whatever throwaway
      key pair it has, and in secure mode nobody without the server's own public key; and a lookup of the url
      asks for that key, first in secure mode, as the fallback otherwise. */
  lemma Agreement(sha: string -> Key, pk: Key -> Key, options: Options, forced: Option<bool>, r1: Key, r2: Key, r3: Key)
    requires options.server
    ensures var d := Derive(sha, options, r1);
            var made := NewServer(pk, d.seedHex, d.secure, r2);
            && made.Some?
            && var s, url := made.value, ReportedUrl(d, made.value);
            var client, arms := Dial(sha, pk, url, forced, r3), Lookup(sha, pk, url);
            && d.secure == AskedSecure(options)
            && (d.secure || forced != Some(true) ==> client.Some? && client.value.target == s.publicKey)
            && (d.secure ==> client.value.identity == Some(s.publicKey))
            && (client.Some? ==> forall throwaway: Key :: Admits(s, Or(client.value.identity, throwaway)))
            && (forall remote: Key :: Admits(s, remote) <==> !AskedSecure(options) || remote == s.publicKey)
            && (if d.secure then arms == Some(Arms(s.publicKey, s.seed))
                else arms == Some(Arms(pk(s.publicKey), s.publicKey)))
  {
    var d, s, url := Reported(sha, pk, options, r1, r2);
    if d.secure {
      SecureUrlDialed(sha, pk, url, d.key, forced, r3);
    } else {
      NameDialed(sha, pk, url, s.publicKey, forced, r3);
    }
  }

  /** The server made from its options, and the url it reports. */
  lemma Reported(sha: string -> Key, pk: Key -> Key, options: Options, r1: Key, r2: Key)
    returns (d: Derived, s: Server, url: string)
    requires options.server
    ensures d == Derive(sha, options, r1) && d.secure == AskedSecure(options)
    ensures NewServer(pk, d.seedHex, d.secure, r2) == Some(s) && url == ReportedUrl(d, s)
    ensures s.secure == d.secure && s.publicKey == pk(s.seed) && (d.secure ==> s.seed == sha(d.key))
    ensures ParseUrl(url) == if d.secure then Parsed(d.key, Some(true)) else Parsed(Z32.Encode(s.publicKey), None)
  {
    d, s := Made(sha, pk, options, r1, r2);
    url := ReportedUrl(d, s);
    ParsesBack(d.secure, ReportedKey(d, s));
  }

  lemma Made(sha: string -> Key, pk: Key -> Key, options: Options, r1: Key, r2: Key) returns (d: Derived, s: Server)
    requires options.server
    ensures d == Derive(sha, options, r1) && d.secure == AskedSecure(options) && (d.secure ==> d.key != "")
    ensures NewServer(pk, d.seedHex, d.secure, r2) == Some(s)
    ensures s.secure == d.secure && s.publicKey == pk(s.seed) && (d.secure ==> s.seed == sha(d.key))
  {
    d := Derive(sha, options, r1);
    DerivedServer(sha, pk, options, r1, r2);
    s := NewServer(pk, d.seedHex, d.secure, r2).value;
  }

  /** The server's own key names its seed in secure mode and its public key otherwise; only the former is
      enough to be the server. */
  lemma ServerKeyNames(s: Server)
    ensures Z32.Decode(ServerKey(s)) == Some(if s.secure then s.seed else s.publicKey)
  {
    Z32.RoundTrip(s.seed);
    Z32.RoundTrip(s.publicKey);
  }

  lemma SecureUrlDialed(sha: string -> Key, pk: Key -> Key, url: string, key: string, forced: Option<bool>, r: Key)
    requires ParseUrl(url) == Parsed(key, Some(true))
    ensures Dial(sha, pk, url, forced, r) == Some(Client(pk(sha(key)), Some(pk(sha(key)))))
    ensures Lookup(sha, pk, url) == Some(Arms(pk(sha(key)), sha(key)))
  {
    Z32.RoundTrip(sha(key));
  }

  lemma NameDialed(sha: string -> Key, pk: Key -> Key, url: string, publicKey: Key, forced: Option<bool>, r: Key)
    requires ParseUrl(url) == Parsed(Z32.Encode(publicKey), None)
    ensures forced != Some(true) ==> Dial(sha, pk, url, forced, r) == Some(Client(publicKey, None))
    ensures Lookup(sha, pk, url) == Some(Arms(pk(publicKey), publicKey))
  {
    Z32.RoundTrip(publicKey);
  }

  /** Nobody else gets in: in secure mode the firewall admits a client exactly when the key it was given
      hashes to the server's key pair. */
  lemma AdmitsExactly(sha: string -> Key, pk: Key -> Key, options: Options, key: string, r1: Key, r2: Key, r3: Key)
    requires options.server && Derive(sha, options, r1).secure
    ensures var d := Derive(sha, options, r1);
            var s := NewServer(pk, d.seedHex, d.secure, r2);
            var c := Dial(sha, pk, key, Some(true), r3);
            && s.Some? && c.Some? && c.value.identity.Some?
            && (Admits(s.value, c.value.identity.value)
                <==> pk(sha(ParseUrl(key).key)) == pk(sha(d.key)))
  {
    DerivedServer(sha, pk, options, r1, r2);
  }

  /** With `secure` forced, a public server's client dials the hash of the name instead of the name. */
  lemma ForcedSecureDials(sha: string -> Key, pk: Key -> Key, options: Options, r1: Key, r2: Key, r3: Key)
    requires options.server && !Derive(sha, options, r1).secure
    ensures var d := Derive(sha, options, r1);
            var s := NewServer(pk, d.seedHex, d.secure, r2);
            && s.Some?
            && var c := Dial(sha, pk, ReportedUrl(d, s.value), Some(true), r3);
            && c.Some? && c.value.target == pk(sha(Z32.Encode(s.value.publicKey)))
  {
    var d := Derive(sha, options, r1);
    DerivedServer(sha, pk, options, r1, r2);
    ParsesBack(false, ReportedKey(d, NewServer(pk, d.seedHex, d.secure, r2).value));
  }

  /** Which need not be the server. */
  lemma ForcedSecureCanMiss() returns (sha: string -> Key, pk: Key -> Key, r: Key)
    ensures var d := Derive(sha, Options(true, None, None), r);
            var s := NewServer(pk, d.seedHex, d.secure, r);
            && s.Some?
            && var c := Dial(sha, pk, ReportedUrl(d, s.value), Some(true), r);
            c.Some? && c.value.target != s.value.publicKey
  {
    var zeros: Key, ones: Key := seq(32, i => 0), seq(32, i => 1);
    sha, pk, r := s => zeros, seed => seed, ones;
    assert ParseUrl("") == Parsed("", None);
    ForcedSecureDials(sha, pk, Options(true, None, None), r, r, r);
    DerivedServer(sha, pk, Options(true, None, None), r, r);
    assert zeros[0] != ones[0];
  }

  /** A public server's bare name, without its url, is dialed as meant exactly when its sixth letter is not
      an `s`; otherwise it is taken for a secure key. */
  lemma BareNameExactly(sha: string -> Key, pk: Key -> Key, publicKey: Key, r: Key)
    ensures var name := Z32.Encode(publicKey);
            var c := Dial(sha, pk, name, None, r);
            && |name| == 52 && c.Some?
            && (c.value.identity == None <==> name[5] != 's')
            && c.value.target == if name[5] != 's' then publicKey else pk(sha(name))
  {
    Z32.RoundTrip(publicKey);
    BareName(publicKey);
  }

  lemma NoPrefix(name: string)
    requires |name| >= 9 && name[2] != ':'
    ensures name[..5] != "hs://"
  {
    var head := "hs://";
    assert head[2] == ':' && name[..5][2] == name[2];
  }

  lemma BareName(publicKey: Key)
    ensures var name := Z32.Encode(publicKey);
            |name| == 52 && ParseUrl(name) == Parsed(name, if name[5] == 's' then Some(true) else None)
  {
    var name := Z32.Encode(publicKey);
    Z32.RoundTrip(publicKey);
    Z32.KeysAre52Letters(name);
    assert name[2] in name;
    Z32.NoColon(name[2]);
    NoPrefix(name);
  }

  /** A server given a key has the same identity every time it starts, and in secure mode also when it is
      given its own reported url. */
  lemma RestartKeepsIdentity(sha: string -> Key, pk: Key -> Key, options: Options, flag: Option<bool>,
                             r1: Key, r2: Key, r3: Key, r4: Key)
    requires options.server
    ensures var d := Derive(sha, options, r1);
            var s := NewServer(pk, d.seedHex, d.secure, r2);
            && s.Some?
            && (ParseUrl(Or(options.key, "")).key != "" ==>
                  var d' := Derive(sha, options, r3);
                  d' == d && NewServer(pk, d'.seedHex, d'.secure, r4) == s)
            && (d.secure ==>
                  var d' := Derive(sha, Options(true, Some(ReportedUrl(d, s.value)), flag), r3);
                  d' == d && NewServer(pk, d'.seedHex, d'.secure, r4) == s)
  {
    var d := Derive(sha, options, r1);
    DerivedServer(sha, pk, options, r1, r2);
    DerivedServer(sha, pk, options, r3, r4);
    var s := NewServer(pk, d.seedHex, d.secure, r2).value;
    ParsesBack(d.secure, ReportedKey(d, s));
    DerivedServer(sha, pk, Options(true, Some(ReportedUrl(d, s)), flag), r3, r4);
  }
}
