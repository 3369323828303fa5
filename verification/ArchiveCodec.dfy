/** The archive format of control_plane/backup.py: MAGIC, a 12-byte nonce, the ciphertext and a
    16-byte tag. It is written and read in chunks, and every way the reads may fall is covered.

    GCM is abstract: an arbitrary key stream xored onto the data and an arbitrary authentication
    function over the associated data and the ciphertext, the shape sections 7.1 and 7.2 of
    NIST SP 800-38D give it. No law of either is assumed. */
module ArchiveCodec {
  import opened Basics
  import opened BundleVolume

  const MAGIC: Bytes := [0x41, 0x42, 0x43, 0x50, 0x31, 0x00]  // "ABCP1\0"
  const NONCE_BYTES := 12
  const TAG_BYTES := 16
  const KEY_BYTES := 32
  const PROLOGUE := 18
  const CHUNK_BYTES := 65536

  // The tag of section 7.1 of NIST SP 800-38D, at its full length.
  type Tag = t: Bytes | |t| == TAG_BYTES witness seq(TAG_BYTES, _ => 0)

  datatype Gcm = Gcm(
    keyStream: (Bytes, Bytes, nat) -> bv8,        // key, nonce, position
    tag: (Bytes, Bytes, Bytes, Bytes) -> Tag)     // key, nonce, associated data, ciphertext
  {
    // Both directions of the stream: byte i is xored with key-stream byte i.
    function Stream(key: Bytes, nonce: Bytes, data: Bytes, offset: nat): (out: Bytes)
      ensures |out| == |data|
    {
      seq(|data|, i requires 0 <= i < |data| => data[i] ^ keyStream(key, nonce, offset + i))
    }

    // The archive of an image.
    function Frame(key: Bytes, nonce: Bytes, image: Bytes): (archive: Bytes) {
      var ciphertext := Stream(key, nonce, image, 0);
      MAGIC + nonce + ciphertext + tag(key, nonce, MAGIC, ciphertext)
    }

    function Nonce(archive: Bytes): (nonce: Bytes)
      requires PROLOGUE <= |archive|
    {
      archive[|MAGIC|..PROLOGUE]
    }

    function Ciphertext(archive: Bytes): (c: Bytes)
      requires PROLOGUE + TAG_BYTES <= |archive|
    {
      archive[PROLOGUE..|archive| - TAG_BYTES]
    }

    // A well-formed archive whose tag verifies under the key.
    predicate Authentic(key: Bytes, archive: Bytes) {
      && |key| == KEY_BYTES
      && PROLOGUE + TAG_BYTES <= |archive|
      && MAGIC <= archive
      && tag(key, Nonce(archive), MAGIC, Ciphertext(archive)) == archive[|archive| - TAG_BYTES..]
    }

    function Plaintext(key: Bytes, archive: Bytes): (image: Bytes)
      requires PROLOGUE + TAG_BYTES <= |archive|
    {
      Stream(key, Nonce(archive), Ciphertext(archive), 0)
    }

    lemma StreamTwice(key: Bytes, nonce: Bytes, data: Bytes, offset: nat)
      ensures Stream(key, nonce, Stream(key, nonce, data, offset), offset) == data
    {
    }

    // Streaming is concatenation: a chunk at its offset continues what came before it.
    lemma StreamConcat(key: Bytes, nonce: Bytes, a: Bytes, b: Bytes)
      ensures Stream(key, nonce, a + b, 0) == Stream(key, nonce, a, 0) + Stream(key, nonce, b, |a|)
    {
    }

    /** Reading back what was written yields the image, and the archive is authentic. */
    lemma DecodeOfEncode(key: Bytes, nonce: Bytes, image: Bytes)
      requires |key| == KEY_BYTES && |nonce| == NONCE_BYTES
      ensures Authentic(key, Frame(key, nonce, image))
      ensures Plaintext(key, Frame(key, nonce, image)) == image
      ensures Nonce(Frame(key, nonce, image)) == nonce
    {
      var archive := Frame(key, nonce, image);
      var ciphertext := Stream(key, nonce, image, 0);
      assert archive[|MAGIC|..PROLOGUE] == nonce;
      assert archive[PROLOGUE..|archive| - TAG_BYTES] == ciphertext;
      assert archive[|archive| - TAG_BYTES..] == tag(key, nonce, MAGIC, ciphertext);
      assert archive[..|MAGIC|] == MAGIC;
      StreamTwice(key, nonce, image, 0);
    }

    /** An authentic archive is exactly what encoding its own plaintext under its own nonce writes:
        no other bytes are accepted for that image and nonce. */
    lemma EncodeOfDecode(key: Bytes, archive: Bytes)
      requires Authentic(key, archive)
      ensures Frame(key, Nonce(archive), Plaintext(key, archive)) == archive
    {
      StreamTwice(key, Nonce(archive), Ciphertext(archive), 0);
      assert archive == archive[..|MAGIC|] + archive[|MAGIC|..PROLOGUE]
                        + archive[PROLOGUE..|archive| - TAG_BYTES] + archive[|archive| - TAG_BYTES..];
    }
  }

  // ---- the format, byte by byte ----

  /** What makes an archive readable under a key: its last 16 bytes are the tag of the 6 bytes of magic and
      of every byte from the 19th on, under the 12 bytes between. */
  ghost predicate Sealed(gcm: Gcm, key: Bytes, archive: Bytes) {
    && |key| == 32 && 34 <= |archive|
    && archive[..6] == [0x41, 0x42, 0x43, 0x50, 0x31, 0x00]
    && gcm.tag(key, archive[6..18], archive[..6], archive[18..|archive| - 16]) == archive[|archive| - 16..]
  }

  /** What it holds: each byte of the image is a byte of the archive under the key stream. */
  ghost predicate Holds(gcm: Gcm, key: Bytes, archive: Bytes, image: Bytes) {
    && |archive| == |image| + 34
    && forall i | 0 <= i < |image| :: image[i] == archive[18 + i] ^ gcm.keyStream(key, archive[6..18], i)
  }

  lemma SealedIsAuthentic(gcm: Gcm, key: Bytes, archive: Bytes)
    ensures gcm.Authentic(key, archive) <==> Sealed(gcm, key, archive)
  {
    assert |MAGIC| == 6 && |archive| >= 6 ==> (MAGIC <= archive <==> archive[..6] == MAGIC);
  }

  lemma PlaintextIsHeld(gcm: Gcm, key: Bytes, archive: Bytes)
    requires PROLOGUE + TAG_BYTES <= |archive|
    ensures Holds(gcm, key, archive, gcm.Plaintext(key, archive))
  {
  }

  lemma OpensIffSealed(gcm: Gcm, key: Bytes, archive: Bytes)
    ensures gcm.Authentic(key, archive) <==> Sealed(gcm, key, archive)
    ensures PROLOGUE + TAG_BYTES <= |archive| ==>
              forall image :: Holds(gcm, key, archive, image) <==> image == gcm.Plaintext(key, archive)
  {
    SealedIsAuthentic(gcm, key, archive);
    if PROLOGUE + TAG_BYTES <= |archive| {
      PlaintextIsHeld(gcm, key, archive);
      var plain := gcm.Plaintext(key, archive);
      forall image
        ensures Holds(gcm, key, archive, image) <==> image == plain
      {
        if Holds(gcm, key, archive, image) {
          assert forall i | 0 <= i < |image| :: image[i] == plain[i];
        }
      }
    }
  }

  /** The encryption of `create_backup`: the image is read in chunks and never held encrypted whole. */
  method EncryptImage(gcm: Gcm, key: Bytes, nonce: Bytes, image: Bytes) returns (archive: Option<Bytes>)
    requires |nonce| == NONCE_BYTES
    ensures archive == if |key| == KEY_BYTES then Some(gcm.Frame(key, nonce, image)) else None
    ensures archive.Some? <==> |key| == 32
    ensures archive.Some? ==>
              Sealed(gcm, key, archive.value) && Holds(gcm, key, archive.value, image) && archive.value[6..18] == nonce
  {
    if |key| != KEY_BYTES {
      return None;
    }
    var written: Bytes := MAGIC + nonce;
    var ciphertext: Bytes := [];
    var position := 0;
    while position < |image|
      invariant position <= |image|
      invariant ciphertext == gcm.Stream(key, nonce, image[..position], 0)
      invariant written == MAGIC + nonce + ciphertext
    {
      var size :| 0 < size <= CHUNK_BYTES && position + size <= |image|;
      var chunk := image[position..position + size];
      gcm.StreamConcat(key, nonce, image[..position], chunk);
      assert image[..position + size] == image[..position] + chunk;
      var block := gcm.Stream(key, nonce, chunk, position);
      ciphertext := ciphertext + block;
      written := written + block;
      position := position + size;
    }
    assert image[..position] == image;
    archive := Some(written + gcm.tag(key, nonce, MAGIC, ciphertext));
    gcm.DecodeOfEncode(key, nonce, image);
    OpensIffSealed(gcm, key, archive.value);
  }

  /** `_authenticated_digest`: a digest exactly for an authentic archive that can be read. */
  method AuthenticatedDigest(gcm: Gcm, archive: Bytes, key: Bytes, readable: bool) returns (digest: Option<Digest>)
    ensures digest == if readable && gcm.Authentic(key, archive) then Some(Sha256(gcm.Plaintext(key, archive)))
                      else None
    ensures digest.Some? <==> readable && Sealed(gcm, key, archive)
    ensures digest.Some? ==> Holds(gcm, key, archive, digest.value.preimage)
  {
    OpensIffSealed(gcm, key, archive);
    if !readable {
      return None;
    }
    if |archive| < PROLOGUE || !(MAGIC <= archive) || |archive| < PROLOGUE + TAG_BYTES || |key| != KEY_BYTES {
      return None;
    }
    var nonce, tag := archive[|MAGIC|..PROLOGUE], archive[|archive| - TAG_BYTES..];
    var body := gcm.Ciphertext(archive);
    var hashed: Bytes := [];
    var position := 0;
    while position < |body|
      invariant position <= |body|
      invariant hashed == gcm.Stream(key, nonce, body[..position], 0)
    {
      var size :| 0 < size <= CHUNK_BYTES && position + size <= |body|;
      var chunk := body[position..position + size];
      gcm.StreamConcat(key, nonce, body[..position], chunk);
      assert body[..position + size] == body[..position] + chunk;
      hashed := hashed + gcm.Stream(key, nonce, chunk, position);
      position := position + size;
    }
    assert body[..position] == body;
    digest := if gcm.tag(key, nonce, MAGIC, body) == tag then Some(Sha256(hashed)) else None;
  }

  // What `_restore_locked` accepts: an authentic archive of a non-empty image.
  predicate Restorable(gcm: Gcm, key: Bytes, archive: Bytes) {
    gcm.Authentic(key, archive) && PROLOGUE + TAG_BYTES < |archive|
  }

  ghost predicate OnlyDiffersAt(f: Files, g: Files, name: Name) {
    forall n | n != name :: Lookup(g, n) == Lookup(f, n)
  }

  // Chunk by chunk into the temporary.
  method DecryptChunks(volume: Volume, temporary: Name, gcm: Gcm, archive: Bytes, key: Bytes) returns (ok: bool)
    requires temporary !in volume.files
    modifies volume
    ensures OnlyDiffersAt(old(volume.files), volume.files, temporary)
    ensures |old(volume.history)| <= |volume.history|
    ensures volume.history[..|old(volume.history)|] == old(volume.history)
    ensures forall k | |old(volume.history)| <= k < |volume.history| ::
              OnlyDiffersAt(old(volume.files), volume.history[k], temporary)
    ensures ok ==> Restorable(gcm, key, archive) && temporary in volume.files
                   && volume.files[temporary].data == gcm.Plaintext(key, archive)
    ensures Restorable(gcm, key, archive) && volume.faults == old(volume.faults) ==> ok
    ensures old(volume.faults) <= volume.faults && volume.unread == old(volume.unread)
    ensures !ok && temporary !in volume.files ==> volume.files == old(volume.files)
  {
    if |archive| <= PROLOGUE + TAG_BYTES || !(MAGIC <= archive) || |key| != KEY_BYTES {
      return false;
    }
    var nonce, tag := archive[|MAGIC|..PROLOGUE], archive[|archive| - TAG_BYTES..];
    var body := gcm.Ciphertext(archive);
    var written: Bytes := [];
    var position := 0;
    ok := volume.Write(temporary, []);
    while ok && position < |body|
      invariant position <= |body|
      invariant ok ==> written == gcm.Stream(key, nonce, body[..position], 0)
      invariant OnlyDiffersAt(old(volume.files), volume.files, temporary)
      invariant temporary in volume.files && (ok ==> volume.files[temporary].data == written)
      invariant |old(volume.history)| <= |volume.history|
      invariant volume.history[..|old(volume.history)|] == old(volume.history)
      invariant forall k | |old(volume.history)| <= k < |volume.history| ::
                  OnlyDiffersAt(old(volume.files), volume.history[k], temporary)
      invariant old(volume.faults) <= volume.faults && volume.unread == old(volume.unread)
      invariant volume.faults == old(volume.faults) ==> ok
    {
      var size :| 0 < size <= CHUNK_BYTES && position + size <= |body|;
      var chunk := body[position..position + size];
      gcm.StreamConcat(key, nonce, body[..position], chunk);
      assert body[..position + size] == body[..position] + chunk;
      written := written + gcm.Stream(key, nonce, chunk, position);
      position := position + size;
      ok := volume.Write(temporary, written);
    }
    if ok {
      assert body[..position] == body;
      // The tag is right, and what was decrypted may be trusted.
      ok := gcm.tag(key, nonce, MAGIC, body) == tag;
    }
  }

  /** The decryption of `_restore_locked`, into a temporary file of the destination directory. Nothing but that
      file is written, and success means the tag verified over it. */
  method DecryptTo(volume: Volume, temporary: Name, gcm: Gcm, archive: Bytes, key: Bytes) returns (ok: bool)
    requires temporary !in volume.files
    modifies volume
    ensures OnlyDiffersAt(old(volume.files), volume.files, temporary)
    ensures |old(volume.history)| <= |volume.history|
    ensures volume.history[..|old(volume.history)|] == old(volume.history)
    ensures forall k | |old(volume.history)| <= k < |volume.history| ::
              OnlyDiffersAt(old(volume.files), volume.history[k], temporary)
    ensures ok ==> Restorable(gcm, key, archive) && temporary in volume.files
                   && volume.files[temporary].data == gcm.Plaintext(key, archive)
    ensures ok ==> Sealed(gcm, key, archive) && |archive| > 34
                   && Holds(gcm, key, archive, volume.files[temporary].data)
    ensures Sealed(gcm, key, archive) && |archive| > 34 && volume.faults == old(volume.faults) ==> ok
    ensures old(volume.faults) <= volume.faults && volume.unread == old(volume.unread)
    ensures !ok && temporary !in volume.files ==> volume.files == old(volume.files)
  {
    SealedIsAuthentic(gcm, key, archive);
    ok := DecryptChunks(volume, temporary, gcm, archive, key);
    if ok {
      PlaintextIsHeld(gcm, key, archive);
    }
  }
}
