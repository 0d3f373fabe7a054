/** The keys of a configuration file: each is one word, and each is recognised. */
module ConfigNames {
  import opened Letters
  import opened ConfigParser

  /** No space and no comment sign: cleaning leaves it alone. */
  predicate Tight(s: string) {
    forall i :: 0 <= i < |s| ==> !IsSpace(s[i]) && s[i] != '#'
  }

  predicate Word(k: string) {
    Tight(k) && '=' !in k
  }

  predicate InDeviceSection(n: Key) {
    n in {KListenPort, KFwMark, KPrivateKey, KWsListen, KWsServerCert, KWsServerKey, KWsServerBearer, KWsProxies}
  }

  predicate InPeerSection(n: Key) {
    n != KUnknown && !InDeviceSection(n)
  }

  lemma Words0()
    ensures Word("FwMark") && Word("WSMode") && Word("WSMask") && Word("WSTLSCA")
    ensures Word("WSListen") && Word("Endpoint") && Word("WSBearer") && Word("WSTLSKey")
    ensures Word("PublicKey") && Word("WSTLSCert") && Word("ListenPort")
  {
  }

  lemma Words1()
    ensures Word("PrivateKey") && Word("AllowedIPs") && Word("PresharedKey") && Word("WSBackoffMin")
    ensures Word("WSBackoffMax") && Word("WSTLSInsecure") && Word("WSServerTLSKey")
  {
  }

  lemma Words2()
    ensures Word("WSServerBearer") && Word("WSTunnelTarget") && Word("WSPingInterval") && Word("WSServerTLSCert")
    ensures Word("WSTrustedProxies")
  {
  }

  lemma Words3()
    ensures Word("PersistentKeepalive")
  {
  }

  lemma WordOfKey(n: Key)
    requires n != KUnknown
    ensures Word(Spelled(n))
  {
    hide Word;
    Words0();
    Words1();
    Words2();
    Words3();
  }

  /** Keys of one length that one section compares. */
  lemma DeviceKeysDiffer()
    ensures !Same("PrivateKey", "ListenPort") && !Same("WSServerBearer", "WSServerTLSKey")
  {
    hide Same;
    Differ("PrivateKey", "ListenPort", 0);
    Differ("WSServerBearer", "WSServerTLSKey", 8);
  }

  lemma ShortKeysDiffer()
    ensures !Same("WSMask", "WSMode") && !Same("WSTLSCert", "PublicKey")
    ensures !Same("WSBearer", "Endpoint") && !Same("WSTLSKey", "Endpoint") && !Same("WSTLSKey", "WSBearer")
  {
    hide Same;
    Differ("WSMask", "WSMode", 3);
    Differ("WSTLSCert", "PublicKey", 0);
    Differ("WSBearer", "Endpoint", 0);
    Differ("WSTLSKey", "Endpoint", 0);
    Differ("WSTLSKey", "WSBearer", 2);
  }

  lemma LongKeysDiffer()
    ensures !Same("WSBackoffMin", "PresharedKey") && !Same("WSBackoffMax", "PresharedKey") && !Same("WSBackoffMax", "WSBackoffMin")
    ensures !Same("WSPingInterval", "WSTunnelTarget")
  {
    hide Same;
    Differ("WSBackoffMin", "PresharedKey", 0);
    Differ("WSBackoffMax", "PresharedKey", 0);
    Differ("WSBackoffMax", "WSBackoffMin", 10);
    Differ("WSPingInterval", "WSTunnelTarget", 2);
  }

  /** The spelling of each key is read as that key. */
  lemma DeviceNamed(n: Key)
    requires InDeviceSection(n)
    ensures DeviceName(Spelled(n)) == n
  {
    hide Same;
    DeviceKeysDiffer();
    SameItself(Spelled(n));
  }

  lemma PeerNamed(n: Key)
    requires InPeerSection(n)
    ensures PeerName(Spelled(n)) == n
  {
    hide Same;
    ShortKeysDiffer();
    LongKeysDiffer();
    SameItself(Spelled(n));
  }
}
