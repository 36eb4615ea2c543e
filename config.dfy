/** The environment variables the core reads. */
module Config {
  import opened Wrappers

  /** `process.env.NODE_ENV` and `process.env.EMAIL_VERIFICATION_REQUIRED`; `None` when unset. */
  datatype Env = Env(nodeEnv: Option<string>, emailVerificationRequired: Option<string>)

  predicate IsDevelopment(env: Env)
  {
    env.nodeEnv == Some("development")
  }

  predicate VerificationForced(env: Env)
  {
    env.emailVerificationRequired == Some("true")
  }
}
