/** `generateLink`: a GitHub URL for the repository, with a path segment chosen by event name. */
module Links {
  import opened AsciiCase
  import opened JsValues

  /** The `mappings` object: event name to repository path segment. */
  const Mappings: map<string, string> := map[
    "issue_comment" := "issues",
    "issues" := "issues",
    "pull_request" := "pulls",
    "pull_request_review_comment" := "pulls",
    "push" := "commits",
    "project_card" := "projects"
  ]

  const GitHub: string := "https://github.com/"

  /** `${mappings[e.toLowerCase()]}`. */
  function Segment(e: string): string {
    PropertyText(Mappings, Lower(e))
  }

  /** `generateLink(e, repository)`: the GitHub prefix, the repository, and the event's segment
      between slashes; the repository and the segment can be read back out of the link. */
  function GenerateLink(e: string, repository: string): (link: string)
    ensures |link| == |GitHub| + |repository| + |Segment(e)| + 2
    ensures link[..|GitHub|] == GitHub
    ensures link[|GitHub|..|GitHub| + |repository|] == repository
    ensures link[|GitHub| + |repository|] == '/'
    ensures link[|GitHub| + |repository| + 1..|link| - 1] == Segment(e)
    ensures link[|link| - 1] == '/'
  {
    GitHub + repository + "/" + Segment(e) + "/"
  }

  /** For a fixed event, different repositories give different links. */
  lemma LinkDeterminesRepository(e: string, r1: string, r2: string)
    requires GenerateLink(e, r1) == GenerateLink(e, r2)
    ensures r1 == r2
  {
    var link := GenerateLink(e, r1);
    assert |r1| == |r2|;
    assert r1 == link[|GitHub|..|GitHub| + |r1|];
  }

  /** The lookup ignores the case of the event name. */
  lemma LinkCaseInsensitive(e1: string, e2: string, repository: string)
    requires Lower(e1) == Lower(e2)
    ensures GenerateLink(e1, repository) == GenerateLink(e2, repository)
  {
  }

  lemma LinkIgnoresUpperCasing(e: string, repository: string)
    ensures GenerateLink(Upper(e), repository) == GenerateLink(e, repository)
    ensures GenerateLink(Lower(e), repository) == GenerateLink(e, repository)
  {
    LowerForgetsCase(e);
  }

  /** The table's event names are already lower case, so each one finds its own entry. */
  lemma TableSegments()
    ensures Segment("issue_comment") == "issues" && Segment("issues") == "issues"
    ensures Segment("pull_request") == "pulls" && Segment("pull_request_review_comment") == "pulls"
    ensures Segment("push") == "commits" && Segment("project_card") == "projects"
  {
    assert Lower("issue_comment") == "issue_comment";
    assert Lower("issues") == "issues";
    assert Lower("pull_request") == "pull_request";
    assert Lower("pull_request_review_comment") == "pull_request_review_comment";
    assert Lower("push") == "push";
    assert Lower("project_card") == "project_card";
  }

  /** Comments on issues and issues share a segment, as do pull requests and their review
      comments; pushes go to the commits and project cards to the projects. */
  lemma SharedSegments(repository: string)
    ensures GenerateLink("issue_comment", repository) == GenerateLink("issues", repository)
    ensures GenerateLink("pull_request", repository) == GenerateLink("pull_request_review_comment", repository)
    ensures GenerateLink("issues", repository) == GitHub + repository + "/issues/"
    ensures GenerateLink("pull_request", repository) == GitHub + repository + "/pulls/"
    ensures GenerateLink("push", repository) == GitHub + repository + "/commits/"
    ensures GenerateLink("project_card", repository) == GitHub + repository + "/projects/"
  {
    TableSegments();
    var base := GitHub + repository + "/";
    assert base + "issues" + "/" == GitHub + repository + "/issues/";
    assert base + "pulls" + "/" == GitHub + repository + "/pulls/";
    assert base + "commits" + "/" == GitHub + repository + "/commits/";
    assert base + "projects" + "/" == GitHub + repository + "/projects/";
  }

  /** The segment is one of the four repository pages exactly when the lower-cased event is
      in the table; an unknown event that is no `Object.prototype` member gives `undefined`. */
  lemma SegmentKnownIff(e: string)
    ensures Segment(e) in {"issues", "pulls", "commits", "projects"} <==> Lower(e) in Mappings
    ensures Lower(e) !in Mappings && !IsObjectPrototypeName(Lower(e)) ==> Segment(e) == "undefined"
  {
    var k := Lower(e);
    if k !in Mappings && IsObjectPrototypeName(k) {
      if k != "constructor" && k != "__proto__" {
        var t := InheritedText(k).value;
        assert t[..9] == "function ";
      }
    }
  }
}
