/** What travels between the programs, and what one `receive` may make of it.

    A send arrives whole and in order. A `recv` returns one queued send, or several
    glued together; the key exchange alone is assumed to be framed. */
module Wire {
  import opened Wrappers
  import opened Constants
  import opened SessionKeys

  /** One `::send`: plain text, the AES ciphertext of a text, a public key in PEM form,
      or one of the three parts (vector, sealed key, payload) of a sealed secret. */
  datatype Packet =
    | Text(s: string)
    | Sealed(keys: Keys, s: string)
    | PublicKey(pem: string)
    | Envelope(reader: Option<string>, part: nat, body: string)

  /** What `Client::receive` hands back: FAILURE, zero bytes, or a string. */
  datatype RecvResult = Fail | Closed | Got(s: string)

  /** Text that survives the buffer and its terminator. */
  predicate Fits(s: string) { 1 <= |s| < BUFFER && NUL !in s }

  function PlainText(pkts: seq<Packet>): Option<string> {
    if pkts == [] then Some("") else
    var rest := PlainText(pkts[1..]);
    match pkts[0]
    case Text(s) => if rest.None? then None else Some(s + rest.value)
    case PublicKey(s) => if rest.None? then None else Some(s + rest.value)
    case _ => None
  }

  /** The sends that one `recv` may return together. */
  predicate Chunk(pkts: seq<Packet>) {
    |pkts| >= 1 && (|pkts| == 1 || forall p | p in pkts :: p.Text? || p.Sealed?)
  }

  /** A `recv` takes the first k packets of the queue; it takes none, and reports the
      end of the connection, once the queue is empty and the peer has closed. */
  predicate Takes(queue: seq<Packet>, k: nat, peerClosed: bool) {
    if k == 0 then queue == [] && peerClosed else k <= |queue| && Chunk(queue[..k])
  }

  /** The results `receive` may have on a chunk, or on a closed connection (no packets).
      Ciphertext under the right keys decrypts; anything else read in the wrong mode is
      FAILURE or a string nobody can predict. */
  predicate Delivers(encrypted: bool, keys: Keys, pkts: seq<Packet>, r: RecvResult) {
    if pkts == [] then
      r == if encrypted then Fail else Closed
    else if encrypted then
      if |pkts| == 1 && pkts[0].Sealed? && pkts[0].keys == keys && Fits(pkts[0].s) then r == Got(pkts[0].s)
      else r.Fail? || (r.Got? && r.s != "")
    else
      var text := PlainText(pkts);
      if text.Some? && Fits(text.value) then r == Got(text.value)
      else r.Got?
  }

  /** One send, read in the mode it was written in, arrives as it is. */
  lemma DeliversSingle(encrypted: bool, keys: Keys, s: string, r: RecvResult)
    requires Fits(s)
    ensures Delivers(false, keys, [Text(s)], r) <==> r == Got(s)
    ensures Delivers(false, keys, [PublicKey(s)], r) <==> r == Got(s)
    ensures Delivers(true, keys, [Sealed(keys, s)], r) <==> r == Got(s)
  {
    assert PlainText([Text(s)][1..]) == Some("") && s + "" == s;
    assert PlainText([PublicKey(s)][1..]) == Some("");
  }
}
