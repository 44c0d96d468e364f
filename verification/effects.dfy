/** What a page handler hands back to the browser instead of performing it:
    a toast and a router navigation. */
module Effects {

  /** A `toast.success`, `toast.error` or plain `toast.message` with its text. */
  datatype Notice = Success(text: string) | Failure(text: string) | Info(text: string)

  /** `router.push` or `router.replace` to a path. */
  datatype Navigation = Push(path: string) | Replace(path: string)
}
