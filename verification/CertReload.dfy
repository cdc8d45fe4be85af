/** Hot reload of a certificate, certSource in src/ngrok/server/tls.go: callers race
    with each other for the lock and with a program that rewrites the files. */
module CertReload {
  import opened Bytes
  import opened Options

  // ----- The files -----

  /** Contents and modification time. */
  datatype File = File(bytes: seq<byte>, mod: nat)

  /** What may become of a file while the clock moves on: nothing, removal, or a write
      with a modification time later than any before. */
  predicate Later(was: Option<File>, now: Option<File>, clock: nat) {
    now == was || (now.Some? ==> now.value.mod > clock)
  }

  class Files {
    var crt: Option<File>
    var key: Option<File>
    var clock: nat

    ghost predicate Valid()
      reads this
    {
      && (crt.Some? ==> 0 < crt.value.mod <= clock)
      && (key.Some? ==> 0 < key.value.mod <= clock)
    }

    constructor ()
      ensures Valid() && crt == None && key == None
    {
      crt, key, clock := None, None, 0;
    }

    /** The other program: any number of writes and removals, each write with a fresh
        modification time. */
    method Writer(busy: bool)
      requires Valid()
      modifies this
      ensures Valid() && clock >= old(clock)
      ensures Later(old(crt), crt, old(clock)) && Later(old(key), key, old(clock))
      ensures !busy ==> crt == old(crt) && key == old(key)
    {
      if busy {
        var n: int := *;
        while n > 0
          invariant Valid() && clock >= old(clock)
          invariant Later(old(crt), crt, old(clock)) && Later(old(key), key, old(clock))
        {
          Change();
          n := n - 1;
        }
      }
    }

    method Change()
      requires Valid()
      modifies this
      ensures Valid() && clock > old(clock)
      ensures Later(old(crt), crt, old(clock)) && Later(old(key), key, old(clock))
    {
      var file: Option<File>, isCrt: bool := *, *;
      if file.Some? && file.value.mod <= clock {
        file := None;
      }
      clock := if file.Some? then file.value.mod else clock + 1;
      if isCrt {
        crt := file;
      } else {
        key := file;
      }
    }
  }

  // ----- The certificate source -----

  datatype Pair = Pair(crt: seq<byte>, key: seq<byte>)

  datatype CertError = NoFile | BadPair

  datatype Result = Ok(pair: Pair) | Err(error: CertError)

  /** Bytes that were loaded with a modification time are those of the file, unless
      the file's present modification time is another one. */
  predicate Current(file: Option<File>, mod: nat, bytes: seq<byte>) {
    file.Some? && file.value.mod == mod ==> file.value.bytes == bytes
  }

  lemma CurrentLater(was: Option<File>, now: Option<File>, clock: nat, mod: nat, bytes: seq<byte>)
    requires Current(was, mod, bytes) && Later(was, now, clock) && mod <= clock
    ensures Current(now, mod, bytes)
  {
  }

  class CertSource {
    const crtPath: bool  // whether a path is configured; else an asset is used
    const keyPath: bool
    const defaultCrt: seq<byte>
    const defaultKey: seq<byte>
    const keyPair: (seq<byte>, seq<byte>) -> bool
    const files: Files
    var cert: Option<Pair>
    var crtModTime: nat
    var keyModTime: nat
    var nextCheck: int

    predicate AssetBacked() {
      !crtPath || !keyPath
    }

    /** What is loaded is a matching pair, and no renewal is missed: the bytes are
        those of the files, or a recorded modification time is not the present one. */
    ghost predicate Valid()
      reads this, files
    {
      && files.Valid()
      && (cert.Some? ==>
            && keyPair(cert.value.crt, cert.value.key)
            && crtModTime <= files.clock && keyModTime <= files.clock
            && (!AssetBacked() ==>
                  Current(files.crt, crtModTime, cert.value.crt) && Current(files.key, keyModTime, cert.value.key)))
    }

    constructor (crtPath: bool, keyPath: bool, defaultCrt: seq<byte>, defaultKey: seq<byte>,
                 keyPair: (seq<byte>, seq<byte>) -> bool, files: Files)
      requires files.Valid()
      ensures Valid() && cert == None && this.files == files
      ensures this.crtPath == crtPath && this.keyPath == keyPath && this.keyPair == keyPair
      ensures this.defaultCrt == defaultCrt && this.defaultKey == defaultKey
    {
      this.crtPath, this.keyPath, this.keyPair, this.files := crtPath, keyPath, keyPair, files;
      this.defaultCrt, this.defaultKey := defaultCrt, defaultKey;
      cert, crtModTime, keyModTime, nextCheck := None, 0, 0, 0;
    }

    /** The bytes a load would find now. */
    ghost function CrtNow(): Option<seq<byte>>
      reads files
    {
      if !crtPath then Some(defaultCrt) else if files.crt.Some? then Some(files.crt.value.bytes) else None
    }

    ghost function KeyNow(): Option<seq<byte>>
      reads files
    {
      if !keyPath then Some(defaultKey) else if files.key.Some? then Some(files.key.value.bytes) else None
    }

    /** The files, or assets, can be read and match. */
    ghost predicate Loadable()
      reads files
    {
      CrtNow().Some? && KeyNow().Some? && keyPair(CrtNow().value, KeyNow().value)
    }

    /** The other program works while this goroutine, holding the lock, does not. */
    method Wait(busy: bool)
      requires Valid()
      modifies files
      ensures Valid() && files.clock >= old(files.clock)
      ensures Later(old(files.crt), files.crt, old(files.clock)) && Later(old(files.key), files.key, old(files.clock))
      ensures !busy ==> files.crt == old(files.crt) && files.key == old(files.key)
    {
      files.Writer(busy);
      if cert.Some? && !AssetBacked() {
        CurrentLater(old(files.crt), files.crt, old(files.clock), crtModTime, cert.value.crt);
        CurrentLater(old(files.key), files.key, old(files.clock), keyModTime, cert.value.key);
      }
    }

    /** Two files, looked at one after the other. */
    method StatModTimes(busy: bool) returns (crtMod: nat, keyMod: nat, err: Option<CertError>)
      requires Valid()
      modifies files
      ensures Valid() && files.clock >= old(files.clock) && crtMod <= files.clock && keyMod <= files.clock
      ensures !busy ==> files.crt == old(files.crt) && files.key == old(files.key)
      ensures AssetBacked() ==> err == None
      ensures !busy && !AssetBacked() ==> err == if files.crt.Some? && files.key.Some? then None else Some(NoFile)
      ensures !busy && !AssetBacked() && err == None ==> crtMod == files.crt.value.mod && keyMod == files.key.value.mod
    {
      if AssetBacked() {
        return 0, 0, None;
      }
      if files.crt == None {
        return 0, 0, Some(NoFile);
      }
      crtMod := files.crt.value.mod;
      Wait(busy);
      if files.key == None {
        return 0, 0, Some(NoFile);
      }
      return crtMod, files.key.value.mod, None;
    }

    /** What a caller gets when a load fails: the old certificate, if there is one. */
    method KeepOld(error: CertError) returns (r: Result)
      ensures r == match cert case Some(pair) => Ok(pair) case None => Err(error)
    {
      return if cert.Some? then Ok(cert.value) else Err(error);
    }

    method ReadCrt() returns (bytes: Option<seq<byte>>)
      ensures bytes == CrtNow()
    {
      return if !crtPath then Some(defaultCrt) else if files.crt.Some? then Some(files.crt.value.bytes) else None;
    }

    method ReadKey() returns (bytes: Option<seq<byte>>)
      ensures bytes == KeyNow()
    {
      return if !keyPath then Some(defaultKey) else if files.key.Some? then Some(files.key.value.bytes) else None;
    }

    /** The part of Certificate that holds the lock. Whatever is written meanwhile, no
        renewal is missed and a loaded certificate is never lost. */
    method Reload(busy: bool) returns (r: Result)
      requires Valid()
      modifies this`cert, this`crtModTime, this`keyModTime, this`nextCheck, files
      ensures Valid() && (old(cert).Some? ==> cert.Some?) && files.clock >= old(files.clock)
      ensures match r case Ok(pair) => cert == Some(pair) case Err(_) => cert == None
      ensures AssetBacked() && old(cert).Some? ==> cert == old(cert)
      ensures !busy ==> files.crt == old(files.crt) && files.key == old(files.key)
      ensures !busy && (!AssetBacked() || old(cert) == None) && Loadable() ==>
                cert == Some(Pair(CrtNow().value, KeyNow().value))
    {
      var crtMod, keyMod, err := StatModTimes(busy);
      if err.Some? {
        r := KeepOld(err.value);
        return;
      }
      if cert.Some? && (AssetBacked() || (crtMod == crtModTime && keyMod == keyModTime)) {
        nextCheck := *;
        return Ok(cert.value);
      }
      r := Load(busy, crtMod, keyMod);
    }

    /** Reads the two files, one after the other. */
    method ReadFiles(busy: bool, ghost crtMod: nat) returns (crt: Option<seq<byte>>, key: Option<seq<byte>>)
      requires Valid() && crtMod <= files.clock
      modifies files
      ensures Valid() && files.clock >= old(files.clock)
      ensures !busy ==> files.crt == old(files.crt) && files.key == old(files.key)
      ensures !busy && crt.Some? ==> crt == CrtNow() && key == KeyNow()
      ensures !busy && CrtNow().Some? ==> crt.Some?
      ensures crt.Some? && !AssetBacked() ==> Current(files.crt, crtMod, crt.value)
      ensures crt.Some? && key.Some? ==> key == KeyNow()
    {
      Wait(busy);
      crt := ReadCrt();
      key := None;
      if crt.Some? {
        ghost var file, clock := files.crt, files.clock;
        Wait(busy);
        key := ReadKey();
        if !AssetBacked() {
          CurrentLater(file, files.crt, clock, crtMod, crt.value);
        }
      }
    }

    /** Reads the two files and takes the pair if it matches. */
    method Load(busy: bool, crtMod: nat, keyMod: nat) returns (r: Result)
      requires Valid() && crtMod <= files.clock && keyMod <= files.clock && (cert.Some? ==> !AssetBacked())
      modifies this`cert, this`crtModTime, this`keyModTime, this`nextCheck, files
      ensures Valid() && (old(cert).Some? ==> cert.Some?) && files.clock >= old(files.clock)
      ensures match r case Ok(pair) => cert == Some(pair) case Err(_) => cert == None
      ensures !busy ==> files.crt == old(files.crt) && files.key == old(files.key)
      ensures !busy && Loadable() ==>
                cert == Some(Pair(CrtNow().value, KeyNow().value))
    {
      hide Later;
      var crt, key := ReadFiles(busy, crtMod);
      if crt == None || key == None {
        r := KeepOld(NoFile);
        return;
      }
      if !keyPair(crt.value, key.value) {
        r := KeepOld(BadPair);
        return;
      }
      cert, crtModTime, keyModTime, nextCheck := Some(Pair(crt.value, key.value)), crtMod, keyMod, *;
      return Ok(cert.value);
    }

    /** Other callers and the other program, while this one does not hold the lock. */
    method Others(busy: bool)
      requires Valid()
      modifies this`cert, this`crtModTime, this`keyModTime, this`nextCheck, files
      ensures Valid() && files.clock >= old(files.clock) && (old(cert).Some? ==> cert.Some?)
      ensures AssetBacked() && old(cert).Some? ==> cert == old(cert)
      ensures !busy ==> cert == old(cert) && crtModTime == old(crtModTime) && keyModTime == old(keyModTime) && nextCheck == old(nextCheck)
      ensures !busy ==> files.crt == old(files.crt) && files.key == old(files.key)
    {
      if busy {
        var n: int := *;
        while n > 0
          invariant Valid() && files.clock >= old(files.clock) && (old(cert).Some? ==> cert.Some?)
          invariant AssetBacked() && old(cert).Some? ==> cert == old(cert)
        {
          Wait(true);
          var _ := Reload(true);
          n := n - 1;
        }
      }
    }

    /** Once a certificate is loaded no call returns an error, whatever happens around
        it; a certificate that is returned is a matching pair. A call that is past the
        next check, with nothing happening around it, returns what the files hold now
        if they can be read and match. */
    method Certificate(now: int, busy: bool) returns (r: Result)
      requires Valid()
      modifies this`cert, this`crtModTime, this`keyModTime, this`nextCheck, files
      ensures Valid() && (old(cert).Some? ==> cert.Some? && r.Ok?)
      ensures !busy ==> files.crt == old(files.crt) && files.key == old(files.key)
      ensures r.Ok? ==> cert == Some(r.pair) && keyPair(r.pair.crt, r.pair.key)
      ensures AssetBacked() && old(cert).Some? ==> cert == old(cert) && r == Ok(cert.value)
      ensures old(cert).Some? && now < old(nextCheck) && !busy ==> cert == old(cert) && r == Ok(cert.value)
      ensures !busy && (old(cert) == None || (!AssetBacked() && now >= old(nextCheck))) && Loadable() ==>
                r == Ok(Pair(CrtNow().value, KeyNow().value))
    {
      Others(busy);
      if cert.Some? && now < nextCheck {
        return Ok(cert.value);
      }
      var crtMod, keyMod, err := StatModTimes(busy);
      Others(busy);
      if err.Some? {
        r := KeepOld(err.value);
        return;
      }
      if cert.Some? && (AssetBacked() || (crtMod == crtModTime && keyMod == keyModTime)) {
        return Ok(cert.value);
      }
      Others(busy);
      r := Reload(busy);
    }
  }

  /** With only the certificate's path configured and the key an asset, a renewal of
      the file is never seen: whenever it is called, Certificate returns the old pair,
      though the file holds new bytes that would load. */
  method StaleAsset(before: seq<byte>, after: seq<byte>, asset: seq<byte>, keyPair: (seq<byte>, seq<byte>) -> bool, now: int)
    returns (source: CertSource, r: Result)
    requires before != after && keyPair(before, asset) && keyPair(after, asset)
    ensures source.crtPath && !source.keyPath && source.CrtNow() == Some(after) && source.Loadable()
    ensures r == Ok(Pair(before, asset)) && source.cert == Some(r.pair)
  {
    var files := new Files();
    files.crt, files.clock := Some(File(before, 1)), 1;
    source := new CertSource(true, false, [], asset, keyPair, files);
    r := source.Certificate(0, false);
    files.clock := files.clock + 1;
    files.crt := Some(File(after, files.clock));
    r := source.Certificate(now, false);
  }
}
