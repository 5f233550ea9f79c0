/** The landing page's logic: the case-insensitive topic search and the
    screen state that switches between the topic list, the camera and the
    3D viewer. */
module IndexPage {
  import opened Text

  datatype Option<T> = None | Some(value: T)

  /** A topic card's data; image, overview, key points and references are
      presentational and not modelled. */
  datatype TopicEntry = TopicEntry(id: string, title: string, description: string, modelPath: string)

  /** The fixed topic catalogue `topics`. */
  const Topics: seq<TopicEntry> := [
    TopicEntry("earth", "Planet Earth",
               "Explore our planet's structure, atmosphere, and geographical features in 3D",
               "/models/Earth2.glb"),
    TopicEntry("brain", "Human Brain",
               "Explore the human brain anatomy and neural structures in 3D",
               "/models/brain.glb"),
    TopicEntry("heart", "Human Heart",
               "Discover the anatomy and function of the cardiovascular system",
               "/models/heart.glb")
  ]

  /** The filter test: the lower-cased title or description includes the
      lower-cased query. */
  predicate MatchesQuery(topic: TopicEntry, query: string) {
    Contains(Lower(topic.title), Lower(query)) || Contains(Lower(topic.description), Lower(query))
  }

  /** `topics.filter(...)`: the topics that match, in catalogue order. */
  function FilterTopics(topics: seq<TopicEntry>, query: string): (filtered: seq<TopicEntry>)
    ensures |filtered| <= |topics|
    ensures forall t :: t in filtered <==> t in topics && MatchesQuery(t, query)
  {
    if topics == [] then []
    else (if MatchesQuery(topics[0], query) then [topics[0]] else []) + FilterTopics(topics[1..], query)
  }

  /** `a` is `b` with some elements left out, order kept: the head of `b`
      is either skipped or matched with the head of `a`. */
  predicate IsSubsequence<T(==)>(a: seq<T>, b: seq<T>) {
    a == [] || (b != [] && (IsSubsequence(a, b[1..]) || (a[0] == b[0] && IsSubsequence(a[1..], b[1..]))))
  }

  /** The filtered list is an order-preserving subsequence of the catalogue. */
  lemma {:induction false} FilterIsSubsequence(topics: seq<TopicEntry>, query: string)
    ensures IsSubsequence(FilterTopics(topics, query), topics)
  {
    if topics != [] {
      FilterIsSubsequence(topics[1..], query);
      var rest := FilterTopics(topics[1..], query);
      var filtered := FilterTopics(topics, query);
      if MatchesQuery(topics[0], query) {
        assert filtered == [topics[0]] + rest;
        assert filtered[0] == topics[0] && filtered[1..] == rest;
      } else {
        assert filtered == rest;
      }
      assert IsSubsequence(filtered, topics);
    }
  }

  /** The filter sees the query only lower-cased, so queries that differ
      only in letter case find the same topics. */
  lemma {:induction false} FilterIgnoresCase(topics: seq<TopicEntry>, q1: string, q2: string)
    requires Lower(q1) == Lower(q2)
    ensures FilterTopics(topics, q1) == FilterTopics(topics, q2)
  {
    if topics != [] {
      FilterIgnoresCase(topics[1..], q1, q2);
    }
  }

  /** The empty query matches every topic. */
  lemma {:induction false} EmptyQueryKeepsAll(topics: seq<TopicEntry>)
    ensures FilterTopics(topics, "") == topics
  {
    if topics != [] {
      ContainsEmpty(Lower(topics[0].title));
      EmptyQueryKeepsAll(topics[1..]);
    }
  }

  /** The toast `handleSearch` raises. */
  datatype SearchNotice = NoTopicsFound | FoundTopics(count: nat)

  /** The page state of `Index`. */
  class Index {
    var selectedTopic: Option<TopicEntry>
    var showCamera: bool
    var showModel: bool
    var filteredTopics: seq<TopicEntry>

    constructor ()
      ensures selectedTopic == None && !showCamera && !showModel && filteredTopics == Topics
    {
      selectedTopic := None;
      showCamera := false;
      showModel := false;
      filteredTopics := Topics;
    }

    /** The camera is rendered: `showCamera && selectedTopic`. */
    predicate CameraVisible(): (visible: bool)
      reads this
      ensures visible ==> showCamera && selectedTopic.Some?
    {
      showCamera && selectedTopic.Some?
    }

    /** The 3D viewer is rendered: `showModel && selectedTopic`. */
    predicate ViewerVisible(): (visible: bool)
      reads this
      ensures visible ==> showModel && selectedTopic.Some?
    {
      showModel && selectedTopic.Some?
    }

    /** handleSearch: always filters the full catalogue, never the previous result. */
    method HandleSearch(query: string) returns (notice: SearchNotice)
      modifies this`filteredTopics
      ensures filteredTopics == FilterTopics(Topics, query)
      ensures unchanged(this`selectedTopic, this`showCamera, this`showModel)
      ensures notice == NoTopicsFound <==> filteredTopics == []
      ensures notice.FoundTopics? ==> notice.count == |filteredTopics|
    {
      var filtered := FilterTopics(Topics, query);
      filteredTopics := filtered;
      if |filtered| == 0 {
        notice := NoTopicsFound;
      } else {
        notice := FoundTopics(|filtered|);
      }
    }

    /** handleViewAR: select the topic and open the camera. */
    method HandleViewAR(topic: TopicEntry)
      modifies this`selectedTopic, this`showCamera
      ensures selectedTopic == Some(topic) && showCamera
      ensures showModel == old(showModel) && filteredTopics == old(filteredTopics)
      ensures CameraVisible()
    {
      selectedTopic := Some(topic);
      showCamera := true;
    }

    /** handleImageRecognized: close the camera and open the viewer on the
      same topic. */
    method HandleImageRecognized()
      modifies this`showCamera, this`showModel
      ensures !showCamera && showModel
      ensures selectedTopic == old(selectedTopic) && filteredTopics == old(filteredTopics)
      ensures !CameraVisible()
      ensures ViewerVisible() <==> selectedTopic.Some?
    {
      showCamera := false;
      showModel := true;
    }

    /** handleCloseModel: close the viewer and forget the topic, which hides
      the camera as well. */
    method HandleCloseModel()
      modifies this`showModel, this`selectedTopic
      ensures !showModel && selectedTopic == None
      ensures showCamera == old(showCamera) && filteredTopics == old(filteredTopics)
      ensures !CameraVisible() && !ViewerVisible()
    {
      showModel := false;
      selectedTopic := None;
    }

    /** The camera's `onClose`: hide the camera and nothing else. */
    method CloseCamera()
      modifies this`showCamera
      ensures !showCamera && !CameraVisible()
      ensures selectedTopic == old(selectedTopic) && showModel == old(showModel)
      ensures filteredTopics == old(filteredTopics)
      ensures ViewerVisible() == old(ViewerVisible())
    {
      showCamera := false;
    }
  }

  /** One visit: choose a topic, scan it successfully, look at the model,
      close the viewer. Each step shows exactly the screen the page renders. */
  method VisitTopic(page: Index, topic: TopicEntry)
    modifies page
    ensures page.selectedTopic == None && !page.showModel && !page.showCamera
    ensures page.filteredTopics == old(page.filteredTopics)
  {
    page.HandleViewAR(topic);
    assert page.CameraVisible() && page.selectedTopic == Some(topic);
    page.HandleImageRecognized();
    assert page.ViewerVisible() && !page.CameraVisible() && page.selectedTopic == Some(topic);
    page.HandleCloseModel();
  }
}
