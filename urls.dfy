/**
 * The URL helpers of the views. `baseUrl` is the string value of the
 * `BASE_URL` setting; `http_build_query` is an uninterpreted function.
 */
module Urls {
  import opened Php

  const ImageDir := "/public/img/"

  /** `action_url($action, $params)` */
  function ActionUrl(baseUrl: string, action: string, params: seq<(string, Value)>,
                     buildQuery: seq<(string, Value)> -> string): (url: string)
    ensures StartsWith(url, baseUrl + "/" + LTrim(action, '/'))
    ensures params == [] ==> url == baseUrl + "/" + LTrim(action, '/')
    ensures params != [] ==> url[|baseUrl + "/" + LTrim(action, '/')|..] == "?" + buildQuery(params)
  {
    var path := baseUrl + "/" + LTrim(action, '/');
    if params == [] then path else path + "?" + buildQuery(params)
  }

  /** `img_url($imagePath)` */
  function ImgUrl(baseUrl: string, imagePath: string): (url: string)
  {
    baseUrl + ImageDir + LTrim(imagePath, '/')
  }

  function Slashes(n: nat): string
  {
    seq(n, _ => '/')
  }

  lemma {:induction false} LTrimSlashes(n: nat, s: string)
    ensures LTrim(Slashes(n) + s, '/') == LTrim(s, '/')
    decreases n
  {
    if n > 0 {
      assert (Slashes(n) + s)[0] == '/';
      assert (Slashes(n) + s)[1..] == Slashes(n - 1) + s;
      LTrimSlashes(n - 1, s);
    } else {
      assert Slashes(n) + s == s;
    }
  }

  /** However many slashes an action starts with, it gives the same URL. */
  lemma ActionLeadingSlashesIgnored(baseUrl: string, n: nat, action: string, params: seq<(string, Value)>,
                                    buildQuery: seq<(string, Value)> -> string)
    ensures ActionUrl(baseUrl, Slashes(n) + action, params, buildQuery) == ActionUrl(baseUrl, action, params, buildQuery)
  {
    LTrimSlashes(n, action);
  }

  /** A `?` appears exactly when there are parameters (for a base and action without one). */
  lemma QueryMarkOnlyWithParams(baseUrl: string, action: string, params: seq<(string, Value)>,
                                buildQuery: seq<(string, Value)> -> string)
    requires '?' !in baseUrl && '?' !in action
    ensures '?' in ActionUrl(baseUrl, action, params, buildQuery) <==> params != []
  {
    var path := baseUrl + "/" + LTrim(action, '/');
    LTrimSuffix(action, '/');
    assert '?' !in LTrim(action, '/');
    assert '?' !in path by {
      forall i | 0 <= i < |path| ensures path[i] != '?' {
        if i < |baseUrl| {
          assert path[i] == baseUrl[i];
        } else if i > |baseUrl| {
          assert path[i] == LTrim(action, '/')[i - |baseUrl| - 1];
        }
      }
    }
    if params != [] {
      assert ActionUrl(baseUrl, action, params, buildQuery)[|path|] == '?';
    }
  }

  /** Every image URL starts with the image directory, followed by no further slash. */
  lemma ImgUrlShape(baseUrl: string, imagePath: string)
    ensures StartsWith(ImgUrl(baseUrl, imagePath), baseUrl + ImageDir)
    ensures var url := ImgUrl(baseUrl, imagePath);
      |url| == |baseUrl + ImageDir| || url[|baseUrl + ImageDir|] != '/'
  {
    var url := ImgUrl(baseUrl, imagePath);
    var rest := LTrim(imagePath, '/');
    assert url == (baseUrl + ImageDir) + rest;
    if rest != [] {
      assert url[|baseUrl + ImageDir|] == rest[0];
    }
  }

  /** Image paths that differ only in leading slashes give the same URL. */
  lemma ImgLeadingSlashesIgnored(baseUrl: string, n: nat, imagePath: string)
    ensures ImgUrl(baseUrl, Slashes(n) + imagePath) == ImgUrl(baseUrl, imagePath)
  {
    LTrimSlashes(n, imagePath);
  }
}
