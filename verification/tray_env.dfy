/** The environment the tray icon hands to `xdg-open`: a copy of the
    process environment in which the loader path the bundler overrode is
    put back. Environments are maps from variable name to value. */
module TrayEnv {
  const LibraryPathKey := "LD_LIBRARY_PATH"
  /** Where the bundled launcher saved the loader path it replaced. */
  const SavedLibraryPathKey := "LD_LIBRARY_PATH_ORIG"

  /** `get_env`: restore `LD_LIBRARY_PATH` from its saved value when there is
      one, otherwise drop it. The argument is never changed: Dafny maps are
      values, as the copy `dict(os.environ)` is in the original. */
  function GetEnv(environ: map<string, string>): (r: map<string, string>)
    ensures SavedLibraryPathKey in environ ==>
      LibraryPathKey in r && r[LibraryPathKey] == environ[SavedLibraryPathKey]
    ensures SavedLibraryPathKey !in environ ==> LibraryPathKey !in r
    ensures forall k :: k != LibraryPathKey ==> (k in r <==> k in environ)
    ensures forall k :: k != LibraryPathKey && k in r ==> r[k] == environ[k]
  {
    if SavedLibraryPathKey in environ then environ[LibraryPathKey := environ[SavedLibraryPathKey]]
    else environ - {LibraryPathKey}
  }

  /** Two environments that agree on every name but the loader path give
      the same child environment: the original loader path never reaches
      the child. */
  lemma {:induction false} GetEnvIgnoresLibraryPath(e1: map<string, string>, e2: map<string, string>)
    requires forall k :: k != LibraryPathKey ==> (k in e1 <==> k in e2)
    requires forall k :: k != LibraryPathKey && k in e1 ==> e1[k] == e2[k]
    ensures GetEnv(e1) == GetEnv(e2)
  {
    assert SavedLibraryPathKey != LibraryPathKey;
    var r1, r2 := GetEnv(e1), GetEnv(e2);
    assert r1.Keys == r2.Keys by {
      forall k ensures k in r1 <==> k in r2 {
        if k != LibraryPathKey {
        }
      }
    }
  }

  /** Rewriting an environment that was already rewritten changes nothing. */
  lemma {:induction false} GetEnvIdempotent(environ: map<string, string>)
    ensures GetEnv(GetEnv(environ)) == GetEnv(environ)
  {
    var r := GetEnv(environ);
    assert SavedLibraryPathKey != LibraryPathKey;
    GetEnvIgnoresLibraryPath(r, environ);
  }
}
