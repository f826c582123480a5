/** The variable environment: the `std::map<std::string, double>` that
    `main` creates once (main.cpp:45) and that every line's tokenizer and
    parser reach through the same pointer. */
module Environment {

  class Env {
    var vars: map<string, real>

    constructor ()
      ensures vars == map[]
    {
      vars := map[];
    }
  }

  /** Every binding of `env` survives unchanged in `env'`: names are only
      ever added, never rebound or removed. */
  ghost predicate Extends(env: map<string, real>, env': map<string, real>)
  {
    forall x :: x in env ==> x in env' && env'[x] == env[x]
  }
}
