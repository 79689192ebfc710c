/** The onboarding guide of the product UI
    (ui/src/components/OnboardingGuide.tsx): a sequence of steps the user
    walks through, with the progress kept in the browser's localStorage
    under keys derived from the deployment's hash, the callsign and the
    page path. React state becomes the fields of a class, each event
    handler a method; localStorage becomes a map-valued field. */
module OnboardingGuide {
  import opened Common
  import opened OnboardingHash

  /** One step; `mobileImage?` may be absent. */
  datatype OnboardingStep = OnboardingStep(
    id: string,
    title: string,
    description: string,
    image: string,
    mobileImage: Option<string>)

  /** HOME_PAGE_ONBOARDING_STEPS: the same two steps whatever the theme. */
  function HomePageOnboardingSteps(theme: string): seq<OnboardingStep>
  {
    [OnboardingStep("welcome", "onboarding.steps.home.welcome.title",
                    "onboarding.steps.home.welcome.description", "", Some("")),
     OnboardingStep("test", "onboarding.steps.home.test.title",
                    "onboarding.steps.home.test.description", "", Some("/"))]
  }

  /** getOnboardingImage: the desktop image when forced; else the mobile
      image on a mobile device if it is a non-empty string (JavaScript
      truthiness); else the desktop image. */
  function GetOnboardingImage(step: OnboardingStep, isMobile: bool, forceDesktop: bool): (path: string)
    ensures path == step.image || step.mobileImage == Some(path)
    ensures forceDesktop || !isMobile ==> path == step.image
  {
    if forceDesktop then step.image
    else if isMobile && step.mobileImage.Some? && step.mobileImage.value != "" then step.mobileImage.value
    else step.image
  }

  /** The mobile image is used exactly when it exists, is non-empty, the
      device is mobile and the desktop image is not forced. */
  lemma MobileImageChosen(step: OnboardingStep, isMobile: bool, forceDesktop: bool)
    requires step.mobileImage.Some? && step.mobileImage.value != step.image
    ensures GetOnboardingImage(step, isMobile, forceDesktop) == step.mobileImage.value
            <==> isMobile && !forceDesktop && step.mobileImage.value != ""
  {
  }

  /** On the home page the steps have distinct ids; every image is the
      empty string except the second step's mobile image "/", which only a
      mobile device that is not forced to desktop shows. */
  lemma HomePageSteps(theme: string, isMobile: bool, forceDesktop: bool)
    ensures var steps := HomePageOnboardingSteps(theme);
            |steps| == 2 && steps[0].id != steps[1].id
            && GetOnboardingImage(steps[0], isMobile, forceDesktop) == ""
            && GetOnboardingImage(steps[1], isMobile, forceDesktop)
               == (if isMobile && !forceDesktop then "/" else "")
  {
  }

  /** What a localStorage entry holds: a plain string, or a list of step
      ids written by JSON.stringify. */
  datatype Stored = Text(text: string) | StepList(ids: seq<string>)

  /** `if (localStorage.getItem(key))`: the key exists and its text is not
      empty (the JSON text of a list never is). */
  predicate StoredTruthy(store: map<string, Stored>, key: string)
  {
    key in store && (store[key].Text? ==> store[key].text != "")
  }

  /** The key that records whether the guide has been finished: the
      deployment hash, "-mtx-onboarding-", the callsign, "-" and the path. */
  function SeenKey(hash: string, callsign: string, pathname: string): string
  {
    hash + "-mtx-onboarding-" + callsign + "-" + pathname
  }

  /** The key of the list of completed step ids: as the seen key, with
      "-mtx-onboarding-steps-" in the middle. */
  function StepsKey(hash: string, callsign: string, pathname: string): string
  {
    hash + "-mtx-onboarding-steps-" + callsign + "-" + pathname
  }

  /** The two keys of one user never clash, but the steps key of callsign c
      is the seen key of callsign "steps-" + c: they differ only by that
      segment. */
  lemma StorageKeys(hash: string, callsign: string, pathname: string)
    ensures SeenKey(hash, callsign, pathname) != StepsKey(hash, callsign, pathname)
    ensures StepsKey(hash, callsign, pathname) == SeenKey(hash, "steps-" + callsign, pathname)
  {
    assert |StepsKey(hash, callsign, pathname)| == |SeenKey(hash, callsign, pathname)| + 6;
    assert "-mtx-onboarding-steps-" + callsign == "-mtx-onboarding-" + ("steps-" + callsign);
  }

  /** The index of the first step whose id is not in the completed list,
      -1 when there is none. */
  function FirstIncomplete(steps: seq<OnboardingStep>, completed: seq<string>): (r: int)
    ensures -1 <= r < |steps|
    ensures r == -1 <==> forall i :: 0 <= i < |steps| ==> steps[i].id in completed
    ensures r >= 0 ==> steps[r].id !in completed
    ensures r >= 0 ==> forall i :: 0 <= i < r ==> steps[i].id in completed
  {
    if steps == [] then -1
    else if steps[0].id !in completed then 0
    else
      var r := FirstIncomplete(steps[1..], completed);
      assert forall i :: 1 <= i < |steps| ==> steps[i] == steps[1..][i - 1];
      if r == -1 then -1 else r + 1
  }

  /** The step a restored guide resumes at: the first incomplete one, or
      the last step when all are complete. */
  function ResumeStep(steps: seq<OnboardingStep>, completed: seq<string>): (r: int)
    requires |steps| >= 1
    ensures 0 <= r < |steps|
    ensures forall i :: 0 <= i < r ==> steps[i].id in completed
    ensures steps[r].id !in completed
            || (r == |steps| - 1 && forall i :: 0 <= i < |steps| ==> steps[i].id in completed)
  {
    var i := FirstIncomplete(steps, completed);
    if i != -1 then i else |steps| - 1
  }

  predicate NoDuplicates(ids: seq<string>)
  {
    forall i, j :: 0 <= i < j < |ids| ==> ids[i] != ids[j]
  }

  /** Appending an id unless it is already there (`includes`, then `push`). */
  function AddOnce(ids: seq<string>, id: string): (r: seq<string>)
    ensures id in r
    ensures id in ids ==> r == ids
    ensures |ids| <= |r| <= |ids| + 1 && r[..|ids|] == ids
    ensures forall x :: x in r <==> x in ids || x == id
    ensures NoDuplicates(ids) ==> NoDuplicates(r)
  {
    if id in ids then ids else ids + [id]
  }

  /** Recording a step twice records it once. */
  lemma AddOnceIdempotent(ids: seq<string>, id: string)
    ensures AddOnce(AddOnce(ids, id), id) == AddOnce(ids, id)
  {
  }

  /** The completed list after recording each id of `ids` in turn, as a run
      of completions does. */
  function AddAll(completed: seq<string>, ids: seq<string>): seq<string>
  {
    if ids == [] then completed
    else AddOnce(AddAll(completed, ids[..|ids| - 1]), ids[|ids| - 1])
  }

  /** Recording distinct ids one by one from nothing lists exactly them, in
      order. */
  lemma {:induction false} AddAllDistinct(ids: seq<string>)
    requires NoDuplicates(ids)
    ensures AddAll([], ids) == ids
  {
    if ids != [] {
      var init, last := ids[..|ids| - 1], ids[|ids| - 1];
      DistinctInit(ids);
      AddAllDistinct(init);
      assert init + [last] == ids;
      AddAllLast(init, last);
    }
  }

  /** One more id, not yet recorded, is appended. */
  lemma AddAllLast(init: seq<string>, last: string)
    requires AddAll([], init) == init && last !in init
    ensures AddAll([], init + [last]) == init + [last]
  {
    assert (init + [last])[..|init|] == init;
  }

  /** Without its last id a list of distinct ids is still one, and lacks
      that id. */
  lemma DistinctInit(ids: seq<string>)
    requires NoDuplicates(ids) && ids != []
    ensures NoDuplicates(ids[..|ids| - 1]) && ids[|ids| - 1] !in ids[..|ids| - 1]
  {
    var init := ids[..|ids| - 1];
    forall i, j | 0 <= i < j < |init| ensures init[i] != init[j] {
      assert init[i] == ids[i] && init[j] == ids[j];
    }
    forall k | 0 <= k < |init| ensures init[k] != ids[|ids| - 1] {
      assert init[k] == ids[k];
    }
  }

  /** The ids of the steps, in order. */
  function StepIds(steps: seq<OnboardingStep>): (ids: seq<string>)
    ensures |ids| == |steps|
    ensures forall k :: 0 <= k < |steps| ==> ids[k] == steps[k].id
  {
    seq(|steps|, k requires 0 <= k < |steps| => steps[k].id)
  }

  /** The state of one mounted OnboardingGuide component. */
  class Guide {
    var open: bool
    var currentStep: int
    var completed: seq<string>
    var showCompletion: bool
    var canReview: bool
    var reviewMode: bool
    var imageError: bool
    var imageLoading: bool
    /** localStorage. */
    var store: map<string, Stored>
    /** `meta.callsign`, "" while unknown. */
    var callsign: string
    /** The deployment name from the healthcheck, "" until its answer
        arrives. */
    var deployment: string

    const steps: seq<OnboardingStep>
    const pathname: string

    /** The current step is always a step, and the completion screen is
        never shown (nothing ever sets it). */
    predicate Valid()
      reads this
    {
      |steps| >= 1 && 0 <= currentStep < |steps| && !showCompletion
    }

    function SeenStorageKey(): string
      reads this
    {
      SeenKey(HashKey(deployment), callsign, pathname)
    }

    function StepsStorageKey(): string
      reads this
    {
      StepsKey(HashKey(deployment), callsign, pathname)
    }

    /** What the restore effect leaves behind, given the open flag, step,
        completed list and review flag before it: nothing changes until
        callsign and deployment are known; then the guide opens unless it
        was finished, a stored list of step ids becomes the completed list,
        and when that list is non-empty and the guide unfinished the guide
        resumes at ResumeStep and allows review. */
    predicate Restored(open0: bool, currentStep0: int, completed0: seq<string>, canReview0: bool)
      requires |steps| >= 1
      reads this
    {
      if callsign == "" || deployment == "" then
        open == open0 && currentStep == currentStep0
        && completed == completed0 && canReview == canReview0
      else
        var seen := StoredTruthy(store, SeenStorageKey());
        var key := StepsStorageKey();
        var listed := key in store && store[key].StepList?;
        var resumes := listed && |store[key].ids| > 0 && !seen;
        open == (!seen || open0)
        && completed == (if listed then store[key].ids else completed0)
        && currentStep == (if resumes then ResumeStep(steps, store[key].ids) else currentStep0)
        && canReview == (resumes || canReview0)
    }

    /** The initial useState values over an existing localStorage; the
        restore effect's first run on mount is Restore. */
    constructor (steps: seq<OnboardingStep>, callsign: string, deployment: string, pathname: string,
                 store: map<string, Stored>)
      requires |steps| >= 1
      ensures Valid()
      ensures this.steps == steps && this.callsign == callsign
      ensures this.deployment == deployment && this.pathname == pathname
      ensures this.store == store
      ensures !open && currentStep == 0 && completed == [] && !canReview && !reviewMode
      ensures !imageError && imageLoading
    {
      this.steps := steps;
      this.callsign := callsign;
      this.deployment := deployment;
      this.pathname := pathname;
      this.store := store;
      open := false;
      currentStep := 0;
      completed := [];
      showCompletion := false;
      canReview := false;
      reviewMode := false;
      imageError := false;
      imageLoading := true;
    }

    /** The restore effect: see Restored. */
    method Restore()
      requires Valid()
      modifies this
      ensures Valid()
      ensures Restored(old(open), old(currentStep), old(completed), old(canReview))
      ensures store == old(store) && showCompletion == old(showCompletion)
      ensures callsign == old(callsign) && deployment == old(deployment)
      ensures reviewMode == old(reviewMode)
      ensures imageError == old(imageError) && imageLoading == old(imageLoading)
    {
      if callsign == "" || deployment == "" {
        return;
      }
      var deploymentHash := HashString(deployment);
      var storageKey := SeenKey(deploymentHash, callsign, pathname);
      var seenOnboarding := StoredTruthy(store, storageKey);
      var stepsKey := StepsKey(deploymentHash, callsign, pathname);
      if !seenOnboarding {
        open := true;
      }
      PickUpStoredSteps(stepsKey, seenOnboarding);
    }

    /** The second half of the restore effect: a stored list of step ids
        becomes the completed list, and a non-empty one resumes an
        unfinished guide at ResumeStep and allows review. */
    method PickUpStoredSteps(stepsKey: string, seenOnboarding: bool)
      requires Valid()
      modifies this
      ensures Valid()
      ensures var listed := stepsKey in store && store[stepsKey].StepList?;
              var resumes := listed && |store[stepsKey].ids| > 0 && !seenOnboarding;
              completed == (if listed then store[stepsKey].ids else old(completed))
              && currentStep == (if resumes then ResumeStep(steps, store[stepsKey].ids) else old(currentStep))
              && canReview == (resumes || old(canReview))
      ensures open == old(open) && store == old(store) && showCompletion == old(showCompletion)
      ensures callsign == old(callsign) && deployment == old(deployment)
      ensures reviewMode == old(reviewMode)
      ensures imageError == old(imageError) && imageLoading == old(imageLoading)
    {
      if stepsKey in store && store[stepsKey].StepList? {
        var parsedCompleted := store[stepsKey].ids;
        completed := parsedCompleted;
        if |parsedCompleted| > 0 && !seenOnboarding {
          var firstIncompleteIndex := FirstIncomplete(steps, parsedCompleted);
          if firstIncompleteIndex != -1 {
            currentStep := firstIncompleteIndex;
          } else {
            currentStep := |steps| - 1;
          }
          canReview := true;
        }
      }
    }

    /** New values of the callsign or the deployment (the healthcheck
        answering later, say): they are taken, and the restore effect runs
        again exactly when one of them changed. */
    method UpdateMeta(newCallsign: string, newDeployment: string)
      requires Valid()
      modifies this
      ensures Valid()
      ensures callsign == newCallsign && deployment == newDeployment
      ensures store == old(store) && showCompletion == old(showCompletion)
      ensures reviewMode == old(reviewMode)
      ensures imageError == old(imageError) && imageLoading == old(imageLoading)
      ensures newCallsign != old(callsign) || newDeployment != old(deployment) ==>
                Restored(old(open), old(currentStep), old(completed), old(canReview))
      ensures newCallsign == old(callsign) && newDeployment == old(deployment) ==>
                open == old(open) && currentStep == old(currentStep)
                && completed == old(completed) && canReview == old(canReview)
    {
      var changed := newCallsign != callsign || newDeployment != deployment;
      callsign := newCallsign;
      deployment := newDeployment;
      if changed {
        Restore();
      }
    }

    /** handleNext: one step forward unless on the last step. */
    method HandleNext()
      requires Valid()
      modifies this
      ensures Valid()
      ensures callsign == old(callsign) && deployment == old(deployment)
      ensures old(currentStep) < |steps| - 1 ==>
                currentStep == old(currentStep) + 1 && !imageError && imageLoading
      ensures old(currentStep) == |steps| - 1 ==>
                currentStep == old(currentStep)
                && imageError == old(imageError) && imageLoading == old(imageLoading)
      ensures open == old(open) && completed == old(completed) && store == old(store)
      ensures canReview == old(canReview) && reviewMode == old(reviewMode)
      ensures showCompletion == old(showCompletion)
    {
      if currentStep < |steps| - 1 {
        currentStep := currentStep + 1;
        imageError := false;
        imageLoading := true;
      }
    }

    /** handlePrev: one step back unless on the first step. */
    method HandlePrev()
      requires Valid()
      modifies this
      ensures Valid()
      ensures callsign == old(callsign) && deployment == old(deployment)
      ensures old(currentStep) > 0 ==>
                currentStep == old(currentStep) - 1 && !imageError && imageLoading
      ensures old(currentStep) == 0 ==>
                currentStep == 0 && imageError == old(imageError) && imageLoading == old(imageLoading)
      ensures open == old(open) && completed == old(completed) && store == old(store)
      ensures canReview == old(canReview) && reviewMode == old(reviewMode)
      ensures showCompletion == old(showCompletion)
    {
      if currentStep > 0 {
        currentStep := currentStep - 1;
        imageError := false;
        imageLoading := true;
      }
    }

    /** handleReviewClick: reopen at the first step in review mode. */
    method HandleReviewClick()
      requires Valid()
      modifies this
      ensures Valid()
      ensures callsign == old(callsign) && deployment == old(deployment)
      ensures reviewMode && currentStep == 0 && open
      ensures completed == old(completed) && store == old(store) && canReview == old(canReview)
      ensures imageError == old(imageError) && imageLoading == old(imageLoading)
      ensures showCompletion == old(showCompletion)
    {
      reviewMode := true;
      currentStep := 0;
      open := true;
    }

    /** handleOpenChange: closing in review mode only leaves review mode;
        closing otherwise saves the current step as completed (when the
        deployment is known) and allows review. Opening changes nothing else. */
    method HandleOpenChange(newOpen: bool)
      requires Valid()
      modifies this
      ensures Valid()
      ensures callsign == old(callsign) && deployment == old(deployment)
      ensures open == newOpen && currentStep == old(currentStep)
      ensures imageError == old(imageError) && imageLoading == old(imageLoading)
      ensures showCompletion == old(showCompletion)
      ensures newOpen ==>
                reviewMode == old(reviewMode) && completed == old(completed)
                && store == old(store) && canReview == old(canReview)
      ensures !newOpen && old(reviewMode) ==>
                !reviewMode && completed == old(completed)
                && store == old(store) && canReview == old(canReview)
      ensures !newOpen && !old(reviewMode) ==>
                !reviewMode && canReview
                && (deployment != "" ==>
                      completed == AddOnce(old(completed), steps[currentStep].id)
                      && store == old(store)[StepsStorageKey() := StepList(completed)])
                && (deployment == "" ==> completed == old(completed) && store == old(store))
    {
      open := newOpen;
      if !newOpen && reviewMode {
        reviewMode := false;
      } else if !newOpen && !reviewMode && !showCompletion {
        SaveProgress();
      }
    }

    /** The saving branch of handleOpenChange: with a known deployment the
        current step joins the completed list, which is written to storage
        whether or not it grew; review becomes possible either way. */
    method SaveProgress()
      requires Valid()
      modifies this
      ensures Valid()
      ensures callsign == old(callsign) && deployment == old(deployment)
      ensures open == old(open) && currentStep == old(currentStep)
      ensures imageError == old(imageError) && imageLoading == old(imageLoading)
      ensures showCompletion == old(showCompletion) && reviewMode == old(reviewMode)
      ensures canReview
      ensures deployment != "" ==>
                completed == AddOnce(old(completed), steps[currentStep].id)
                && store == old(store)[StepsStorageKey() := StepList(completed)]
      ensures deployment == "" ==> completed == old(completed) && store == old(store)
    {
      if deployment != "" {
        var deploymentHash := HashString(deployment);
        var newCompleted := AddOnce(completed, steps[currentStep].id);
        store := store[StepsKey(deploymentHash, callsign, pathname) := StepList(newCompleted)];
        completed := newCompleted;
      }
      canReview := true;
    }

    /** The first half of handleComplete: the current step's id is appended
        unless already there, and only a new list is written to storage. */
    method RecordCurrentStep()
      requires Valid()
      modifies this
      ensures Valid()
      ensures callsign == old(callsign) && deployment == old(deployment)
      ensures completed == AddOnce(old(completed), steps[currentStep].id)
      ensures store == if steps[currentStep].id !in old(completed) && deployment != ""
                       then old(store)[StepsStorageKey() := StepList(completed)]
                       else old(store)
      ensures open == old(open) && currentStep == old(currentStep)
      ensures showCompletion == old(showCompletion) && canReview == old(canReview)
      ensures reviewMode == old(reviewMode)
      ensures imageError == old(imageError) && imageLoading == old(imageLoading)
    {
      var step := steps[currentStep];
      if step.id !in completed {
        var newCompleted := completed + [step.id];
        completed := newCompleted;
        if deployment != "" {
          var deploymentHash := HashString(deployment);
          store := store[StepsKey(deploymentHash, callsign, pathname) := StepList(newCompleted)];
        }
      }
    }

    /** handleComplete: mark the current step completed (once), then on the
        last step record the guide as seen and close it, else go on to the
        next step. */
    method HandleComplete()
      requires Valid()
      modifies this
      ensures Valid()
      ensures callsign == old(callsign) && deployment == old(deployment)
      ensures completed == AddOnce(old(completed), steps[old(currentStep)].id)
      ensures old(currentStep) == |steps| - 1 && deployment != "" ==> StoredTruthy(store, SeenStorageKey())
      ensures showCompletion == old(showCompletion)
      ensures var id := steps[old(currentStep)].id;
              var listed := if id !in old(completed) && deployment != ""
                            then old(store)[StepsStorageKey() := StepList(completed)]
                            else old(store);
              if old(currentStep) == |steps| - 1 then
                !open && canReview && !reviewMode && currentStep == old(currentStep)
                && store == (if deployment != "" then listed[SeenStorageKey() := Text("true")] else listed)
                && imageError == old(imageError) && imageLoading == old(imageLoading)
              else
                currentStep == old(currentStep) + 1 && !imageError && imageLoading
                && store == listed && open == old(open)
                && canReview == old(canReview) && reviewMode == old(reviewMode)
    {
      RecordCurrentStep();
      if currentStep == |steps| - 1 {
        if deployment != "" {
          var deploymentHash := HashString(deployment);
          store := store[SeenKey(deploymentHash, callsign, pathname) := Text("true")];
        }
        open := false;
        showCompletion := false;
        canReview := true;
        reviewMode := false;
      } else {
        HandleNext();
      }
    }
  }

  /** Finishing the last step for a known user and deployment writes the
      seen flag, so a guide mounted later over the same storage stays closed
      once it learns the same callsign and deployment. */
  method FinishedGuideStaysClosed(g: Guide) returns (later: Guide)
    requires g.Valid() && g.currentStep == |g.steps| - 1
    requires g.callsign != "" && g.deployment != ""
    modifies g
    ensures StoredTruthy(g.store, g.SeenStorageKey())
    ensures fresh(later) && later.Valid() && later.store == g.store
    ensures later.callsign == g.callsign && later.deployment == g.deployment
    ensures !later.open
  {
    g.HandleComplete();
    later := new Guide(g.steps, "", "", g.pathname, g.store);
    later.Restore();
    later.UpdateMeta(g.callsign, g.deployment);
  }

  /** Completing a step while the deployment is still unknown changes only
      the in-memory list. When the deployment arrives, a list stored for it
      replaces that list, and a guide not recorded as seen opens again, even
      if the completion had just closed it. */
  method CompletedBeforeDeploymentKnown(g: Guide, deployment: string)
    requires g.Valid() && g.callsign != "" && g.deployment == "" && deployment != ""
    modifies g
    ensures g.Valid() && g.deployment == deployment && g.store == old(g.store)
    ensures !StoredTruthy(g.store, g.SeenStorageKey()) ==> g.open
    ensures var key := g.StepsStorageKey();
            key in g.store && g.store[key].StepList? ==> g.completed == g.store[key].ids
  {
    g.HandleComplete();
    g.UpdateMeta(g.callsign, deployment);
  }

  /** Completing the steps one after another from the first, when their
      ids are distinct: after i completions the list holds exactly the first
      i ids, so a restore over it resumes at step i; after all of them no
      step is incomplete. */
  lemma CompletingInOrder(steps: seq<OnboardingStep>, i: nat)
    requires forall a, b :: 0 <= a < b < |steps| ==> steps[a].id != steps[b].id
    requires i <= |steps|
    ensures var done := AddAll([], StepIds(steps)[..i]);
            done == StepIds(steps)[..i]
            && (i < |steps| ==> FirstIncomplete(steps, done) == i && ResumeStep(steps, done) == i)
            && (i == |steps| ==> FirstIncomplete(steps, done) == -1)
  {
    var ids := StepIds(steps);
    assert NoDuplicates(ids[..i]) by {
      forall a, b | 0 <= a < b < i ensures ids[..i][a] != ids[..i][b] {
        assert ids[..i][a] == steps[a].id && ids[..i][b] == steps[b].id;
      }
    }
    AddAllDistinct(ids[..i]);
    if i < |steps| {
      FirstIncompleteOfPrefix(steps, ids, i);
    } else {
      assert ids[..i] == ids;
      forall k | 0 <= k < |steps| ensures steps[k].id in ids {
        assert ids[k] == steps[k].id;
      }
    }
  }

  lemma FirstIncompleteOfPrefix(steps: seq<OnboardingStep>, ids: seq<string>, i: nat)
    requires |ids| == |steps| && i < |steps|
    requires forall k :: 0 <= k < |steps| ==> ids[k] == steps[k].id
    requires forall a, b :: 0 <= a < b < |steps| ==> steps[a].id != steps[b].id
    ensures FirstIncomplete(steps, ids[..i]) == i
  {
    assert steps[i].id !in ids[..i];
    forall k | 0 <= k < i ensures steps[k].id in ids[..i] {
      assert ids[..i][k] == steps[k].id;
    }
  }
}
