/**
 * Idempotency keys.  The key is a hash of a NUL-separated payload; the hash is taken to be injective, so two tasks
 * share a key exactly when their payloads are equal.
 */
module IdempotencyKey {
  import opened PathText

  const NUL: char := 0 as char

  function Digit(d: nat): char
    requires d < 10
  {
    "0123456789"[d]
  }

  /** `%d` of an unsigned integer. */
  function Decimal(n: nat): string {
    if n < 10 then [Digit(n)] else Decimal(n / 10) + [Digit(n % 10)]
  }

  lemma {:induction false} DecimalIsInjective(a: nat, b: nat)
    requires Decimal(a) == Decimal(b)
    ensures a == b
  {
    var s, t := Decimal(a), Decimal(b);
    assert s[|s| - 1] == Digit(a % 10) && t[|t| - 1] == Digit(b % 10);
    if a >= 10 && b >= 10 {
      assert s[..|s| - 1] == Decimal(a / 10) && t[..|t| - 1] == Decimal(b / 10);
      DecimalIsInjective(a / 10, b / 10);
    } else {
      DecimalLength(a);
      DecimalLength(b);
    }
  }

  lemma DecimalLength(n: nat)
    ensures |Decimal(n)| >= 1 && (|Decimal(n)| == 1 <==> n < 10)
  {
    if n >= 10 {
      DecimalLength(n / 10);
    }
  }

  lemma {:induction false} DecimalHasNoNul(n: nat)
    ensures NUL !in Decimal(n)
  {
    if n >= 10 {
      DecimalHasNoNul(n / 10);
    }
  }

  /** The text a task key is the hash of. */
  function Payload(
      folder: nat, localPath: string, fingerprint: string, remoteName: string, remotePath: string): string {
    Decimal(folder) + [NUL] + Clean(localPath) + [NUL] + fingerprint + [NUL] + remoteName + [NUL] + remotePath
  }

  predicate NulFree(s: string) {
    NUL !in s
  }

  lemma CleanIsNulFree(s: string)
    requires NulFree(s)
    ensures NulFree(Clean(s))
  {
    if s != "" && s[0] == '/' {
      var parts := Split(s[1..], '/');
      CleanShape(parts, true);
      if CleanParts(parts, true) != [] {
        assert forall p | p in CleanParts(parts, true) :: p in parts;
        JoinChars(CleanParts(parts, true), parts, s[1..]);
        assert forall c | c in s[1..] :: c in s;
      }
    } else if s != "" {
      CleanIsNormal(s);
    } else {
      assert CleanParts([""], false) == [] by { assert [""][..0] == []; }
    }
  }

  lemma PayloadIsJoin(folder: nat, localPath: string, fingerprint: string, remoteName: string, remotePath: string)
    ensures Payload(folder, localPath, fingerprint, remoteName, remotePath)
         == Join([Decimal(folder), Clean(localPath), fingerprint, remoteName, remotePath], NUL)
  {
    var parts := [Decimal(folder), Clean(localPath), fingerprint, remoteName, remotePath];
    var p1, p2, p3, p4 := parts[..1], parts[..2], parts[..3], parts[..4];
    JoinAppend(p1, Clean(localPath), NUL);
    JoinAppend(p2, fingerprint, NUL);
    JoinAppend(p3, remoteName, NUL);
    JoinAppend(p4, remotePath, NUL);
    assert p1 == [Decimal(folder)];
    assert p2 == p1 + [Clean(localPath)] && p3 == p2 + [fingerprint] && p4 == p3 + [remoteName]
      && parts == p4 + [remotePath];
  }

  /** Two keys collide exactly when folder, cleaned path, fingerprint, remote name and remote path all agree. */
  lemma PayloadIsInjective(
      folder: nat, localPath: string, fingerprint: string, remoteName: string, remotePath: string,
      folder': nat, localPath': string, fingerprint': string, remoteName': string, remotePath': string)
    requires NulFree(localPath) && NulFree(fingerprint) && NulFree(remoteName) && NulFree(remotePath)
    requires NulFree(localPath') && NulFree(fingerprint') && NulFree(remoteName') && NulFree(remotePath')
    ensures Payload(folder, localPath, fingerprint, remoteName, remotePath)
         == Payload(folder', localPath', fingerprint', remoteName', remotePath')
      <==> (folder == folder' && Clean(localPath) == Clean(localPath') && fingerprint == fingerprint'
            && remoteName == remoteName' && remotePath == remotePath')
  {
    var a := [Decimal(folder), Clean(localPath), fingerprint, remoteName, remotePath];
    var b := [Decimal(folder'), Clean(localPath'), fingerprint', remoteName', remotePath'];
    PayloadIsJoin(folder, localPath, fingerprint, remoteName, remotePath);
    PayloadIsJoin(folder', localPath', fingerprint', remoteName', remotePath');
    DecimalHasNoNul(folder);
    DecimalHasNoNul(folder');
    CleanIsNulFree(localPath);
    CleanIsNulFree(localPath');
    if Join(a, NUL) == Join(b, NUL) {
      JoinIsInjective(a, b, NUL);
      assert a[0] == b[0] && a[1] == b[1] && a[2] == b[2] && a[3] == b[3] && a[4] == b[4];
      DecimalIsInjective(folder, folder');
    }
  }
}
