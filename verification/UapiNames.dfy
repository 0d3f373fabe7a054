/** The keys of the UAPI protocol: each is one word, and each is recognised. */
module UapiNames {
  import opened Text
  import opened UapiReader

  predicate Plain(k: string) {
    OneLine(k) && '=' !in k
  }

  lemma Words0()
    ensures Plain("errno") && Plain("fwmark") && Plain("ws_url") && Plain("ws_mask")
    ensures Plain("endpoint") && Plain("rx_bytes") && Plain("tx_bytes")
  {
  }

  lemma Words1()
    ensures Plain("transport") && Plain("ws_bearer") && Plain("ws_tls_ca") && Plain("ws_listen")
    ensures Plain("public_key")
  {
  }

  lemma Words2()
    ensures Plain("ws_tls_key") && Plain("allowed_ip") && Plain("private_key") && Plain("listen_port")
  {
  }

  lemma Words3()
    ensures Plain("ws_tls_cert") && Plain("preshared_key") && Plain("ws_backoff_min")
  {
  }

  lemma Words4()
    ensures Plain("ws_backoff_max") && Plain("wstunnel_target") && Plain("ws_tls_insecure")
  {
  }

  lemma Words5()
    ensures Plain("ws_ping_interval") && Plain("ws_server_bearer")
  {
  }

  lemma Words6()
    ensures Plain("ws_server_tls_key") && Plain("ws_server_tls_cert")
  {
  }

  lemma Words7()
    ensures Plain("ws_trusted_proxies") && Plain("last_handshake_time_sec")
  {
  }

  lemma Words8()
    ensures Plain("last_handshake_time_nsec")
  {
  }

  lemma Words9()
    ensures Plain("persistent_keepalive_interval")
  {
  }

  lemma PlainKey(n: Name)
    requires n != Unknown
    ensures Plain(KeyText(n))
  {
    hide Plain;
    Words0();
    Words1();
    Words2();
    Words3();
    Words4();
    Words5();
    Words6();
    Words7();
    Words8();
    Words9();
  }

  lemma NamedTo10(n: Name)
    requires n != Unknown && |KeyText(n)| <= 10
    ensures NameOf(KeyText(n)) == n
  {
  }

  lemma NamedFrom11(n: Name)
    requires n != Unknown && |KeyText(n)| >= 11
    ensures NameOf(KeyText(n)) == n
  {
  }

  /** The spelling of each key is read as that key. */
  lemma NameOfKey(n: Name)
    requires n != Unknown
    ensures Plain(KeyText(n)) && NameOf(KeyText(n)) == n
  {
    hide KeyText, NameOf, Plain;
    PlainKey(n);
    if |KeyText(n)| <= 10 { NamedTo10(n); } else { NamedFrom11(n); }
  }

  /** Keys that only a request has. */
  lemma RequestKeys()
    ensures Plain("set") && NameOf("set") == Unknown
    ensures Plain("replace_peers") && NameOf("replace_peers") == Unknown
    ensures Plain("replace_allowed_ips") && NameOf("replace_allowed_ips") == Unknown
  {
  }

  lemma ValuesPlain()
    ensures OneLine("true") && OneLine("1") && OneLine("0") && OneLine("udp") && OneLine("websocket") && OneLine("wstunnel")
  {
  }
}
