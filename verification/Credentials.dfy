/**
 Secrets, patches over them, and the sealed form in which they are stored. Sealing is
 an ideal authenticated encryption: it opens under the same key and binding only.
 */
module Credentials {

  /** A secret's bytes, or a byte string that is not UTF-8. */
  datatype Text = Whole(bytes: seq<int>) | Broken(mark: nat)

  const MAX_SECRET := 128 * 1024
  const NONE := Whole([])

  predicate ValidText(t: Text) {
    t.Whole? && |t.bytes| <= MAX_SECRET
  }

  datatype Secrets = Secrets(
    password: Text, sshPassword: Text, sshPrivateKey: Text, sshKeyPassphrase: Text, proxyPassword: Text)

  const EMPTY := Secrets(NONE, NONE, NONE, NONE, NONE)

  predicate Valid(s: Secrets) {
    && ValidText(s.password) && ValidText(s.sshPassword) && ValidText(s.sshPrivateKey)
    && ValidText(s.sshKeyPassphrase) && ValidText(s.proxyPassword)
  }

  datatype Field = Password | SshPassword | SshPrivateKey | SshKeyPassphrase | ProxyPassword | Unknown(name: nat)

  /** Omitted fields are kept; an explicit empty value clears one. */
  type Patch = map<Field, Text>

  predicate Applies(patch: Patch) {
    forall f <- patch :: !f.Unknown? && ValidText(patch[f])
  }

  function Get(s: Secrets, f: Field): Text {
    match f {
      case Password => s.password
      case SshPassword => s.sshPassword
      case SshPrivateKey => s.sshPrivateKey
      case SshKeyPassphrase => s.sshKeyPassphrase
      case ProxyPassword => s.proxyPassword
      case Unknown(_) => NONE
    }
  }

  function Set(s: Secrets, f: Field, v: Text): Secrets {
    match f {
      case Password => s.(password := v)
      case SshPassword => s.(sshPassword := v)
      case SshPrivateKey => s.(sshPrivateKey := v)
      case SshKeyPassphrase => s.(sshKeyPassphrase := v)
      case ProxyPassword => s.(proxyPassword := v)
      case Unknown(_) => s
    }
  }

  function Patched(patch: Patch, s: Secrets, f: Field): Text {
    if f in patch then patch[f] else Get(s, f)
  }

  /** The secrets with every patched field replaced and every other one kept. */
  function Overlay(patch: Patch, s: Secrets): (r: Secrets)
    ensures forall f: Field :: !f.Unknown? ==> Get(r, f) == Patched(patch, s, f)
  {
    Secrets(Patched(patch, s, Password), Patched(patch, s, SshPassword), Patched(patch, s, SshPrivateKey),
      Patched(patch, s, SshKeyPassphrase), Patched(patch, s, ProxyPassword))
  }

  lemma SameFields(a: Secrets, b: Secrets)
    requires forall f: Field :: !f.Unknown? ==> Get(a, f) == Get(b, f)
    ensures a == b
  {
    assert Get(a, Password) == Get(b, Password) && Get(a, SshPassword) == Get(b, SshPassword);
    assert Get(a, SshPrivateKey) == Get(b, SshPrivateKey) && Get(a, SshKeyPassphrase) == Get(b, SshKeyPassphrase);
    assert Get(a, ProxyPassword) == Get(b, ProxyPassword);
  }

  /** Writes the fields one at a time, in whatever order the map is iterated; a field
      that is unknown or a value that is not a secret stops it with an error. */
  method Apply(patch: Patch, order: seq<Field>, start: Secrets) returns (ok: bool, s: Secrets)
    requires forall f :: f in order <==> f in patch
    ensures ok <==> Applies(patch)
    ensures ok ==> s == Overlay(patch, start)
  {
    s := start;
    for i := 0 to |order|
      invariant forall j :: 0 <= j < i ==> !order[j].Unknown? && ValidText(patch[order[j]])
      invariant forall f: Field :: !f.Unknown? ==>
        Get(s, f) == if f in order[..i] then patch[f] else Get(start, f)
    {
      var f := order[i];
      var v := patch[f];
      if !ValidText(v) || f.Unknown? {
        return false, s;
      }
      s := Set(s, f, v);
      assert order[..i + 1] == order[..i] + [f];
    }
    assert order[..|order|] == order;
    SameFields(s, Overlay(patch, start));
    ok := true;
  }

  lemma OverlayValid(patch: Patch, s: Secrets)
    requires Applies(patch) && Valid(s)
    ensures Valid(Overlay(patch, s))
  {}

  /** Patching again with the same patch changes nothing; a later patch wins. */
  lemma OverlayTwice(a: Patch, b: Patch, s: Secrets)
    ensures Overlay(b, Overlay(a, s)) == Overlay(a + b, s)
  {
    SameFields(Overlay(b, Overlay(a, s)), Overlay(a + b, s));
  }

  // ---------------------------------------------------------------------
  // Sealing
  // ---------------------------------------------------------------------

  /** The associated data: which installation, connection and reference, and the format. */
  datatype Binding = Binding(version: nat, installation: nat, owner: nat, ref: nat)

  datatype Sealed = Sealed(key: nat, binding: Binding, plain: Secrets) | Foreign(bytes: nat)

  datatype Opened = Plain(secrets: Secrets) | Rejected

  function Open(key: nat, data: Sealed, binding: Binding): Opened {
    if data.Sealed? && data.key == key && data.binding == binding && Valid(data.plain) then Plain(data.plain) else Rejected
  }
}
