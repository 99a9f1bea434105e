/** The username check shared by user creation and the basic-auth gate (utils.go). */
module Utils {
  import opened GoText

  /** Usernames must be shorter than this many bytes. */
  const MaxNameBytes := 255

  /**
   * `userValidations(username, password)`: accepts exactly the usernames of
   * fewer than 255 bytes, the empty one included; the password plays no part.
   */
  function UserValidations(username: GoString, password: GoString): (ok: bool)
    ensures ok <==> |username| < MaxNameBytes
  {
    if |username| >= MaxNameBytes then false else true
  }

  /** The verdict never depends on the password. */
  lemma PasswordIgnored(username: GoString, p1: GoString, p2: GoString)
    ensures UserValidations(username, p1) == UserValidations(username, p2)
  {
  }

  /** The boundary: 254 bytes pass, 255 bytes fail. */
  lemma Boundary(name254: GoString, name255: GoString, password: GoString)
    requires |name254| == 254 && |name255| == 255
    ensures UserValidations(name254, password)
    ensures !UserValidations(name255, password)
  {
  }

  /**
   * For a name typed as text the bound is on its UTF-8 bytes: fewer than 64
   * characters always pass, 255 or more characters always fail, and an ASCII
   * name passes exactly when it has fewer than 255 characters.
   */
  lemma TextNames(name: string, password: GoString)
    ensures |name| < 64 ==> UserValidations(Utf8(name), password)
    ensures |name| >= MaxNameBytes ==> !UserValidations(Utf8(name), password)
    ensures IsAscii(name) ==> (UserValidations(Utf8(name), password) <==> |name| < MaxNameBytes)
  {
  }

  /** 128 copies of 'é' are 128 characters but 256 bytes, so they are rejected. */
  lemma BytesNotCharacters(password: GoString)
    ensures var name := seq(128, _ => 'é');
      |name| < MaxNameBytes && !UserValidations(Utf8(name), password)
  {
    var name := seq(128, _ => 'é');
    Utf8UniformWidth(name, 2);
  }
}
