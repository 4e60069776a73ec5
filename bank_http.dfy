/** The `check_status` decorator of `src/utils/http_bkkb_utils.py`: every Bangkok Bank
    request goes through it, and a 401 answer becomes a bad-auth exception. */
module BkkbHttp {
  import opened PyCore

  const Unauthorized: int := 401

  /** The wrapper's decision on one response: 401 raises `BadAuthException(reason)`,
      every other status hands the response back unchanged. `msg` only labels the
      log line, which this model leaves out. */
  function CheckStatus<B>(msg: string, resp: Response<B>): (r: Result<Response<B>>)
    ensures r.Raise? <==> resp.status == Unauthorized
    ensures r.Raise? ==> r.exc == BadAuth(resp.reason)
    ensures r.Ok? ==> r.value == resp
  {
    if resp.status == Unauthorized then Raise(BadAuth(resp.reason)) else Ok(resp)
  }

  /** A getter decorated with `check_status(msg)`: the wrapped request `f` is applied
      once to the forwarded arguments and its response is classified. */
  function Decorated<A, B>(msg: string, f: A -> Response<B>, args: A): (r: Result<Response<B>>)
    ensures r.Raise? <==> f(args).status == Unauthorized
    ensures r.Raise? ==> r.exc == BadAuth(f(args).reason)
    ensures r.Ok? ==> r.value == f(args)
  {
    CheckStatus(msg, f(args))
  }

  /** The label never changes the outcome. */
  lemma MessageIrrelevant<B>(m1: string, m2: string, resp: Response<B>)
    ensures CheckStatus(m1, resp) == CheckStatus(m2, resp)
  {
  }

  /** The outcome of a decorated call depends on nothing but the response the wrapped
      request returns for the forwarded arguments. */
  lemma DecoratedDependsOnResponse<A, B>(msg: string, f: A -> Response<B>, g: A -> Response<B>, args: A)
    requires f(args) == g(args)
    ensures Decorated(msg, f, args) == Decorated(msg, g, args)
  {
  }
}
