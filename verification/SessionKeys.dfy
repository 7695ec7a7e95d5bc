/** The AES key and initialisation vector that a session shares, and how `strncpy`
    installs them at the client. */
module SessionKeys {
  const NUL := '\0'
  const KEY_BYTES := 32
  const IV_BYTES := 16

  datatype Keys = Keys(key: string, iv: string)

  predicate KeysValid(k: Keys) { |k.key| == KEY_BYTES && |k.iv| == IV_BYTES }

  function Zeros(n: nat): (z: string)
    ensures |z| == n && forall i | 0 <= i < n :: z[i] == NUL
  {
    if n == 0 then "" else [NUL] + Zeros(n - 1)
  }

  /** The n bytes that `strncpy(dst, src, n)` leaves at dst: it copies up to the first
      zero byte of src and then pads with zeros. */
  function StrNCpy(src: string, n: nat): (dst: string)
    requires n <= |src|
    ensures |dst| == n
  {
    if n == 0 then ""
    else if src[0] == NUL then Zeros(n)
    else [src[0]] + StrNCpy(src[1..], n - 1)
  }

  /** Every byte after the first zero byte is zero as well. */
  predicate ZeroTailed(s: string) {
    forall i, j | 0 <= i < j < |s| :: s[i] == NUL ==> s[j] == NUL
  }

  lemma {:induction false} StrNCpyAt(src: string, n: nat, k: nat)
    requires k < n <= |src|
    ensures NUL in src[..k] ==> StrNCpy(src, n)[k] == NUL
    ensures NUL !in src[..k] ==> StrNCpy(src, n)[k] == src[k]
  {
    if k > 0 && src[0] != NUL {
      StrNCpyAt(src[1..], n - 1, k - 1);
      assert src[..k] == [src[0]] + src[1..][..k - 1];
    } else if k > 0 {
      assert src[..k][0] == NUL;
    }
  }

  /** `strncpy` of a whole buffer is faithful exactly when the buffer is zero-tailed. */
  lemma StrNCpyExact(src: string)
    ensures StrNCpy(src, |src|) == src <==> ZeroTailed(src)
  {
    var dst := StrNCpy(src, |src|);
    forall k | 0 <= k < |src|
      ensures ZeroTailed(src) ==> dst[k] == src[k]
      ensures dst == src ==> forall i | 0 <= i < k :: src[i] == NUL ==> src[k] == NUL
    {
      StrNCpyAt(src, |src|, k);
      assert forall i | 0 <= i < k :: src[i] == src[..k][i];
    }
  }

  /** What the client holds after installing the server's key and vector. */
  function Installed(sent: Keys): Keys
    requires KeysValid(sent)
  {
    Keys(StrNCpy(sent.key, KEY_BYTES), StrNCpy(sent.iv, IV_BYTES))
  }

  predicate Installable(sent: Keys) { ZeroTailed(sent.key) && ZeroTailed(sent.iv) }

  lemma InstalledExact(sent: Keys)
    requires KeysValid(sent)
    ensures Installed(sent) == sent <==> Installable(sent)
  {
    StrNCpyExact(sent.key);
    StrNCpyExact(sent.iv);
  }
}
